# Verified model of the invoice service

This project models the parts of the invoice service that move money, keep books and
grant access, and proves what they keep. Amounts that are stored are whole cents; amounts
that are still being computed are exact reals. One company's rows are modelled at a time,
except for memberships, which span companies.

Check everything with `dafny verify dfyconfig.toml`.

| files | what they model |
|---|---|
| `Results`, `Money`, `Text`, `Sums` | results, rounding to cents, trimming, totals over a table |
| `LineCalc`, `LineCalcLaws`, `Documents` | line and tax arithmetic, the service calculation, saving, reloading and confirming a document |
| `InvoiceBalance`, `SalesLedger`, `SalesLaws`, `SalesRuns`, `InvoiceLifecycle`, `SalesEdgeCases`, `SalesStore` | sales invoices, receipts and payments: specification, what every run keeps, what each call leaves and needs, concrete runs, and the repository with its rows updated in place |
| `ConfirmRuns` | confirming the drafts of a run |
| `RowLocks`, `RowLockLaws`, `Deadlock` | interleavings of receipt and payment transactions under row locks held until commit |
| `ReceiptRaces`, `RaceOutcomes` | the same with the receipts and payments that are read without a lock: when the money is conserved |
| `RevertRaces` | reverts to draft and new payments whose checks are overtaken by other calls |
| `PurchaseLedger`, `PurchaseLaws`, `BillLifecycle`, `PurchaseStore` | bills, purchase receipts and the batch recompute |
| `BillRaces` | interleavings of purchase receipt edits and deletes that read their receipt without a lock |
| `Books`, `JournalLaws`, `JournalStore`, `Reports`, `ReportLaws`, `ReportRows`, `ReportService` | chart of accounts, journal, and the four reports |
| `Taxes`, `TaxEdits`, `TaxStore`, `TaxLaws` | single and compound taxes, and when charging a compound equals charging its components |
| `Numbering` | generated journal numbers |
| `Contacts`, `ContactStore` | replacing a partner's contact list |
| `Memberships`, `MembershipLaws`, `AccessCache`, `SyncLaws`, `Standings`, `MembershipRules`, `OwnerLaws`, `UsableOwners`, `MembershipEdgeCases`, `MembershipStore` | memberships, the access cache, assignment sync and the last-owner guard |
| `CacheRaces` | access lookups that overlap other calls |

Each core follows one plan. A value-level specification gives every call as a function from
a state to a new state or a refusal; `Run` folds it over any sequence of calls, and the main
theorems are about every run. A class with the same rows as fields has the loops and early
returns of the source; its methods are proved equal to the specification.

Some claims in the source's comments and documentation do not hold as stated. For each the
model keeps what the code does, gives a concrete input, and states exactly when the claim is true:

- DTO comments say a confirmed invoice rejects an update; the code allows it in any status,
  so a total can drop below what was paid (`SalesRuns.DashboardMatchesExactlyWhen`,
  `SalesEdgeCases.DashboardCanGoNegative`).
- Sorting allocations does not rule out deadlocks for receipt edits, which lock the old set
  and then the new one (`Deadlock.EditsNeverDeadlockExactlyWhen`, `Deadlock.EditsCanDeadlock`).
- Only invoice rows are locked, so two overlapping transactions can take back the same
  receipt or verify the same payment, and the balance is then no longer the recorded money
  (`ReceiptRaces.ConservedExactlyWhen`, `RaceOutcomes.DeletingTwiceLosesExactlyWhen`,
  `RaceOutcomes.VerifyingTwiceCountsTwice`). A balance that is clamped at zero can hide this:
  deleting twice the only receipt that paid an invoice leaves it right. Purchase receipts
  behave alike (`BillRaces.BillsBalanceExactlyWhen`, `BillRaces.DeletingTwiceLosesExactlyWhen`).
- An invoice is said never to go back to draft while money is applied to it; a receipt that
  arrives between the check and the status change makes a draft with money
  (`RevertRaces.DraftsStayClearExactlyWhen`, `RevertRaces.OvertakenRevertLeavesMoney`).
- The header totals of a journal entry can differ from its lines
  (`Books.HeaderAgreesExactlyWhen`, `Books.HeaderTotalsCanDrift`).
- A compound tax is described as its two taxes applied together; it is always charged
  exclusively, also after a component was deactivated
  (`TaxLaws.CompoundIsItsComponentsExactlyWhen`, `TaxLaws.InclusiveShareShows`).
- Deleting first is said to keep renamed contacts off the duplicate index; swapped names
  still meet it (`Contacts.AcceptedExactlyWhen`, `Contacts.SwappingNamesIsRefused`).
- The last-active-owner guard also counts banned owners, and adding a company by user id is
  not guarded (`UsableOwners.UsableOwnerRemainsExactlyWhen`, `UsableOwners.WhatTheGuardMisses`,
  `MembershipEdgeCases.EveryOwnerCanBeBanned`, `OwnerLaws.SyncLosesOwnerExactlyWhen`,
  `MembershipEdgeCases.TwoEmailsCanLoseTheOwner`).
- A person's companies are found by email, so people without one are taken for each other
  (`SyncLaws.OthersUntouchedExactlyWhen`, `MembershipEdgeCases.BlankEmailsHitOtherPeople`).
- A sync is described as validating everything before writing anything; it can still report
  an error after writing everything, because it looks the member up again in the company it
  was called in (`SyncLaws.ErrorAfterWritingExactlyWhen`, `MembershipEdgeCases.TransferReportsAnError`).
- Changes drop the cache entries they make stale, but a lookup already under way stores its
  answer afterwards (`CacheRaces.CacheNeverLiesExactlyWhen`, `CacheRaces.OvertakenLookupLetsIn`).
- Journal numbers can repeat after a wrap-around or for a book code with a backslash
  (`Numbering.GeneratedIsNewExactlyWhen`, `Numbering.WrapRepeatsANumber`,
  `Numbering.AlwaysNewExactlyWhen`, `Numbering.BackslashRepeatsANumber`).

## Model

| member | source | states |
|---|---|---|
| `Money.AddingToStored` | app/repository/invoice_balance.go:54-57 | Adding a non-negative amount to a stored balance and rounding once carries no fraction of a cent: the balance grows by exactly the rounded amount |
| `Money.StoredFits` | app/repository/invoice_balance.go:54-57 | An amount that fits into a stored balance still fits after it is rounded to cents |
| `Money.HalvesGoAwayFromZero` | app/repository/invoice_balance.go:54-57 | Exactly between two integers, rounding takes the one away from zero, on either side |
| `Text.TrimIsIdempotent` | app/repository/sales_invoice.repository.go:391-430 | A trimmed name or tax id reads back as it was written |
| `LineCalc.GroupTaxes` | utils/linecalc.go:114-130 | One pass over a line's tax ids: refuses an unknown tax, otherwise yields the summed exclusive and the summed inclusive rate, blanks skipped and repeats counted |
| `LineCalc.CalcLine` | utils/linecalc.go:76-152 | One line: the first failed check in source order, or its discount, tax, total and printed figures |
| `LineCalc.AddUpLines` | utils/linecalc.go:75-160 | The line loop: the first fault of any line, or all printed lines with the four unrounded running totals |
| `LineCalc.CheckAdditional` | utils/linecalc.go:161-183 | The document discount: refusals by kind and range, or its rounded amount against the rounded subtotal |
| `LineCalc.CalcLines` | utils/linecalc.go:69-189 | The whole calculation equals its specification on every input, errors included |
| `LineCalc.FirstFaultOfPrefix` | utils/linecalc.go:75-136 | The first faulty line decides the error of the whole document |
| `LineCalc.RateSumConcat` | utils/linecalc.go:114-130 | Rate sums add up over concatenated tax lists |
| `LineCalcLaws.AcceptedTotals` | utils/linecalc.go:161-187 | Every accepted document: 0 <= document discount <= subtotal, the grand total is the rounded sum of line totals minus that discount, and it is never negative |
| `LineCalcLaws.InclusiveTaxesNeverChangeTheTotal` | utils/linecalc.go:114-152 | Adding, dropping or re-rating inclusive taxes changes neither the verdict nor the subtotal, discounts or grand total |
| `LineCalcLaws.SumIsWithinHalfACentPerLine` | utils/linecalc.go:138-152 | For n lines the printed figures sum to within n half-cents of the exact sum |
| `LineCalcLaws.PublishedTotalsDriftByHalfCents` | utils/linecalc.go:138-193 | Published subtotal, tax total and pre-discount grand total are within n + 1 half-cents of the printed lines, for any n |
| `LineCalcLaws.DiscountsAccountForTheFullPrice` | utils/linecalc.go:138-193 | Subtotal plus discount total is within one cent of quantity times price summed over the lines |
| `LineCalcLaws.TaxOfALine` | utils/linecalc.go:114-136 | The tax of a faultless line is every other tax charged on the net amount by itself, plus a share of it that the inclusive taxes, charged on the rest one by one, give back exactly |
| `LineCalcLaws.InclusiveTaxDividesTheNet` | utils/linecalc.go:126-136 | With inclusive taxes of R percent and no others the tax t satisfies 0 <= t <= net and (net - t) * (1 + R / 100) = net |
| `LineCalcLaws.PrintedLine` | utils/linecalc.go:138-152 | Every printed line repeats what was submitted, and its subtotal, tax and total are, each to within half a cent, quantity times price less the discount, the taxes one by one, and the former plus the taxes that are not inclusive |
| `LineCalcLaws.PrintedDiscount` | utils/linecalc.go:161-183 | The document discount is the given amount, or the given percentage of the printed subtotal, to within half a cent |
| `LineCalcLaws.CalcAcceptsExactlyWhen` | utils/linecalc.go:69-183 | A document is accepted if and only if it has lines, each with a name, a positive quantity, a price, a discount in range and known taxes, and a document discount in range |
| `LineCalcLaws.FirstFaultIsTrue` | utils/linecalc.go:75-136 | The reported fault is true of the line it names, and every earlier line is in order |
| `Documents.ResolveTaxRates` | app/service/sales_invoice.service.go:181-198 | The lookup loop returns the rate of exactly the mentioned active taxes |
| `Documents.ResolvedRatesSuffice` | app/service/sales_invoice.service.go:151-198 | Calculating with the looked-up rates equals calculating with all active rates |
| `Documents.CalcDocument` | app/service/sales_invoice.service.go:151-179 | The service calculation with shipping equals its specification, refusals included |
| `Documents.AcceptedGrandTotal` | app/service/sales_invoice.service.go:151-179 | An accepted grand total is non-negative and equals the rounded line totals minus the discount plus rounded shipping |
| `Documents.StoredKeepsTheDocument` | app/repository/sales_invoice.repository.go:391-430 | Saving keeps the lines in order, texts trimmed, each figure at the step of its column nearest to it, and the tax ids that are not blank as often as they were given |
| `Documents.StoredTaxesKeepRates` | app/repository/sales_invoice.repository.go:416-430 | Dropping blank tax ids and keeping repeats on save preserves both rate sums |
| `Documents.RateSumIgnoresOrder` | app/repository/sales_invoice.repository.go:453-473 | Reloading tax rows in any order preserves the rate sums |
| `Documents.RecomputingAStoredDocument` | app/repository/sales_invoice.repository.go:391-473 | Save, reload in any tax order and recompute at unchanged rates: same verdict and same totals for figures within column precision |
| `Documents.ConfirmAcceptsExactlyWhen` | app/service/sales_invoice.service.go:85-108 | For any accepted document, Confirm accepts the stored form if and only if the stored quantity is positive and the stored flat discounts still fit |
| `Documents.ConfirmCanRejectAnAcceptedDocument` | app/service/sales_invoice.service.go:93-103 | A concrete document beyond column precision that is accepted at creation and refused by Confirm |
| `InvoiceBalance.OutstandingIsWhatIsOwed` | app/model/sales_invoice.go:209-214 | The outstanding figure is never negative and is the unpaid rest of an invoice that is not paid off |
| `InvoiceBalance.AcceptedAmountFits` | app/repository/invoice_balance.go:39-69 | An accepted amount leaves the balance between its old value and the grand total |
| `InvoiceBalance.ApplyStatusIsCanonicalExactlyWhen` | app/repository/invoice_balance.go:58-64 | The status switch of apply agrees with those of reverse and refresh if and only if the grand total is positive |
| `InvoiceBalance.ReverseUndoesApply` | app/repository/invoice_balance.go:39-97 | Reversing what was just applied restores the invoice row |
| `SalesLaws.NormalizeSorts` | app/repository/sales_receipt.repository.go:192-203 | Normalising is a sort (a permutation in invoice order) and refuses exactly a repeated invoice |
| `SalesLaws.ApplyAllAcceptsExactlyWhen` | app/repository/sales_receipt.repository.go:207-234 | A sorted allocation list is applied if and only if every allocation would be accepted alone |
| `SalesLaws.FirstRefusalDecides` | app/repository/sales_receipt.repository.go:207-234 | Otherwise the first refused allocation decides the error |
| `SalesLaws.NamedRowIsCredited` | app/repository/sales_receipt.repository.go:207-234 | Each named invoice is credited with exactly its own allocation |
| `SalesLaws.UnnamedRowIsKept` | app/repository/sales_receipt.repository.go:207-234 | An invoice that no allocation names keeps its row |
| `SalesLaws.TotalOfStoredRows` | app/repository/sales_receipt.repository.go:207-234 | The accumulated receipt total is exactly the sum of the stored allocation rows, whatever fractions of a cent were submitted |
| `SalesLaws.ReverseAllDebitsEachInvoice` | app/repository/sales_receipt.repository.go:238-249 | Reversing a stored list debits each of its invoices by exactly its allocation |
| `SalesLaws.ReverseAllAcceptsExactlyWhen` | app/repository/sales_receipt.repository.go:238-249 | A list can be reversed if and only if its invoices are on record, deleted or not |
| `SalesRuns.StepKeepsInv` | app/repository/sales_receipt.repository.go:27-336 | Every call, accepted or refused, keeps the ledger invariant |
| `SalesRuns.RunKeepsInv` | app/repository/sales_receipt.repository.go:27-336 | So does every sequence of calls from the empty ledger |
| `SalesRuns.PaidIsTheMoneyOnRecord` | app/repository/invoice_balance.go:39-97 | After any run, each invoice (deleted ones included) shows as paid exactly its verified payments plus its allocations on live receipts |
| `SalesRuns.ReceiptAmountIsItsRows` | app/repository/sales_receipt.repository.go:207-234 | After any run, a receipt's amount is the sum of its stored allocations |
| `SalesRuns.ReversalNeverClamps` | app/repository/invoice_balance.go:82-85 | After any run, giving a live receipt back never meets the clamp at zero |
| `SalesRuns.DraftsCarryNoMoney` | app/repository/references.go:185-202 | After any run, a draft has no payments, no live allocations and nothing paid |
| `SalesRuns.PaymentStatusFollowsTheBalance` | app/repository/invoice_balance.go:58-115 | After any run, the payment status of an invoice with a positive total is one function of paid and total |
| `SalesRuns.TakeBackKeepsInv` | app/repository/sales_receipt.repository.go:238-336 | A live receipt can always be given back; every invoice loses exactly its share and the invariant stays |
| `SalesRuns.DeletingUndoesCreating` | app/repository/sales_receipt.repository.go:323-336 | Deleting a receipt right after creating it restores every invoice row |
| `ConfirmRuns.ConfirmNeverRejects` | app/service/sales_invoice.service.go:85-108 | At the end of any run at constant tax rates and within column precision, Confirm accepts every live draft, in whatever order its tax rows are loaded |
| `InvoiceLifecycle.CreatedInvoiceIsWorthItsDocument` | app/service/sales_invoice.service.go:29-50 | A new invoice is an unpaid live draft worth the rounded line totals less the document discount plus rounded shipping of the submitted document |
| `InvoiceLifecycle.EditedInvoiceIsWorthItsDocument` | app/repository/sales_invoice.repository.go:123-230 | So is an edited one, with what was paid, its status and every other row as before |
| `InvoiceLifecycle.PaymentAcceptedExactlyWhen` | app/service/sales_payment.service.go:15-29 | A payment is accepted if and only if it is positive and fits what a live confirmed invoice owes; it is recorded unverified, in the nearest cents |
| `InvoiceLifecycle.ReceiptAcceptedExactlyWhen` | app/repository/sales_receipt.repository.go:27-96 | A receipt is accepted if and only if it names invoices of its partner, none twice, with positive amounts that each fit |
| `InvoiceLifecycle.ReceiptEditAcceptedExactlyWhen` | app/repository/sales_receipt.repository.go:254-318 | An edited receipt is accepted if and only if it would be as a new one with the old one given back |
| `InvoiceLifecycle.ReceiptIsAsSubmitted` | app/repository/sales_receipt.repository.go:27-96 | An accepted receipt, new or edited, shows its partner and per invoice the cents nearest to what was submitted; no payment and no other receipt changes |
| `InvoiceLifecycle.StatusMoves` | app/service/sales_invoice.service.go:85-136 | The status of an invoice moves by confirm, revert and cancel alone, drafts alone are confirmed, and nothing moves to the status it has |
| `InvoiceLifecycle.CancelledInvoiceIsClosed` | app/service/sales_invoice.service.go:124-136 | After a cancel, whatever is called, no payment, verification or receipt is accepted on the invoice and it adds nothing to either outstanding figure, until it has been reverted and after that confirmed |
| `InvoiceLifecycle.RevertedInvoiceIsClosed` | app/service/sales_invoice.service.go:110-122 | The same after a revert, until the invoice is confirmed |
| `InvoiceLifecycle.RefusedAsNotConfirmed` | app/repository/invoice_balance.go:45-50 | While a live invoice is not confirmed, payments, verifications and receipts on it are refused as not confirmed |
| `InvoiceLifecycle.ConfirmedInvoiceIsOpen` | app/service/sales_invoice.service.go:85-108 | After a confirm exactly the positive payments up to total less paid are accepted, and the invoice owes just that unless it is a down payment |
| `InvoiceLifecycle.DeletedInvoiceIsGone` | app/repository/sales_invoice.repository.go:295-305 | A deleted invoice stays deleted, takes no money and adds nothing to what is owed |
| `InvoiceLifecycle.AcceptedExactlyWhen` | app/repository/sales_receipt.repository.go:27-336 | Any of the eleven calls is accepted if and only if its needs, stated on the rows before it, are met |
| `InvoiceLifecycle.RefusalsAreSo` | app/repository/sales_receipt.repository.go:27-336 | Whatever a refusal says, the balance it names included, is so |
| `SalesRuns.DashboardMatchesExactlyWhen` | app/repository/sales_invoice.repository.go:528-565 | After any run, the dashboard's outstanding figure equals the sum of per-invoice outstanding if and only if no billed zero-total invoice has money paid |
| `SalesEdgeCases.ZeroInvoicesDisagreeOnStatus` | app/repository/invoice_balance.go:58-64 | Two concrete runs ending with equal paid and total but different payment statuses |
| `SalesEdgeCases.DashboardCanGoNegative` | app/repository/sales_invoice.repository.go:528-565 | A concrete run after which the dashboard's outstanding figure is negative |
| `SalesStore.NormalizeAllocations` | app/repository/sales_receipt.repository.go:192-203 | The seen-map and sort on the submitted list equal the specification |
| `SalesStore.Store.ApplyInvoicePayment` | app/repository/invoice_balance.go:39-69 | Updates one invoice row in place, or refuses and changes nothing |
| `SalesStore.Store.ReverseInvoicePayment` | app/repository/invoice_balance.go:75-97 | Takes an amount back from one row in place, clamped at zero |
| `SalesStore.Store.RefreshPaymentStatus` | app/repository/invoice_balance.go:102-117 | Recomputes the status of a live row from its balance; a missing or deleted row is an error and nothing changes |
| `SalesStore.Store.ApplyReceiptAllocations` | app/repository/sales_receipt.repository.go:207-234 | The apply loop with its running total equals the specification |
| `SalesStore.Store.ReverseReceiptAllocations` | app/repository/sales_receipt.repository.go:238-249 | The reverse loop equals the specification |
| `SalesStore.Store.CreateReceipt` | app/repository/sales_receipt.repository.go:27-96 | Creating a receipt: all rows written, or everything rolled back with the reason |
| `SalesStore.Store.UpdateReceipt` | app/repository/sales_receipt.repository.go:254-318 | Editing a receipt: reverse the old rows, apply the new ones, or roll back |
| `SalesStore.Store.DeleteReceipt` | app/repository/sales_receipt.repository.go:323-336 | Deleting a receipt gives every allocation back and keeps the row as deleted |
| `SalesStore.Store.CreatePayment` | app/service/sales_payment.service.go:15-29 | A payment needs a live confirmed invoice and starts unverified |
| `SalesStore.Store.VerifyPayment` | app/repository/sales_payment.repository.go:139-179 | Verifying moves the stored amount onto the invoice once, or refuses |
| `SalesStore.Store.CreateInvoice` | app/service/sales_invoice.service.go:29-50 | A new invoice is a draft with nothing paid and the total of the submitted document |
| `SalesStore.Store.EditInvoice` | app/repository/sales_invoice.repository.go:123-230 | An edit is allowed in any status, replaces document, partner and total, keeps what is paid and refreshes the payment status |
| `SalesStore.Store.ConfirmInvoice` | app/service/sales_invoice.service.go:85-108 | Confirming recalculates the stored document first |
| `SalesStore.Store.RevertInvoice` | app/service/sales_invoice.service.go:110-122 | Back to draft is refused while money is recorded |
| `SalesStore.Store.SetStatus` | app/repository/sales_invoice.repository.go:307-324 | A change to draft is refused while money is recorded; then a missing or deleted row is not found; otherwise only the status changes |
| `SalesStore.Store.StoredRows` | app/repository/sales_receipt.repository.go:27-96 | The allocation rows are stored in cents, in list order |
| `SalesStore.Store.CancelInvoice` | app/service/sales_invoice.service.go:124-136 | Cancelling does not look at payments; the invoice ends cancelled and takes no payment, verification or receipt |
| `SalesStore.Store.DeleteInvoice` | app/repository/sales_invoice.repository.go:295-305 | Deleting marks a live invoice as deleted whatever is recorded against it; its payments and receipts keep their rows |
| `RowLocks.EveryInterleavingIsSerial` | app/repository/invoice_balance.go:39-97 | Every interleaving of transactions that hold row locks until commit leaves the rows of some serial order, namely commit order |
| `RowLocks.InterleavingKeepsInv` | app/repository/invoice_balance.go:39-52 | What every interleaving keeps: exclusive locks, and each transaction's writes as if it ran alone on the committed rows |
| `RowLockLaws.ApplyOpsAreTheLoop` | app/repository/sales_receipt.repository.go:207-234 | A receipt's lock program run alone is the sequential apply loop |
| `RowLockLaws.ReverseOpsAreTheLoop` | app/repository/sales_receipt.repository.go:238-249 | The same for the reverse loop |
| `RowLockLaws.BalancesStayBounded` | app/repository/invoice_balance.go:39-97 | In every interleaving 0 <= paid <= grand total on every invoice |
| `RowLockLaws.AmountsAddUpExactlyWhen` | app/repository/invoice_balance.go:75-97 | In every interleaving the balance is the old one plus applied minus reversed amounts if and only if every committed reversal found its amount paid |
| `ReceiptRaces.ExploreKeepsInv` | app/repository/sales_receipt.repository.go:207-336 | With receipts and payments read unlocked and written at commit, every interleaving keeps the lock invariant, ordered non-negative allocations and jobs that match their programs |
| `ReceiptRaces.PaidAfterJob` | app/repository/sales_receipt.repository.go:238-318 | Run alone, a transaction lowers each invoice by what it read of its receipt, clamped at zero, and then adds what it gives |
| `ReceiptRaces.CommitConservesExactlyWhen` | app/repository/sales_receipt.repository.go:238-336 | When an invoice shows the recorded money, it still does after a commit if and only if the share taken back is the share now on record (or the clamp hides the rest because nothing else is recorded) and no verified payment is verified again |
| `ReceiptRaces.ConservedExactlyWhen` | app/repository/sales_receipt.repository.go:207-336 | In every interleaving from a consistent ledger, paid equals verified payments plus live allocations after every step if and only if every commit meets that condition |
| `RaceOutcomes.WithoutRacesMoneyIsConserved` | app/repository/sales_receipt.repository.go:207-336 | It holds throughout whenever every transaction began on a live record and no other transaction committed on the same receipt or payment before it did |
| `RaceOutcomes.SecondDeleteConservesExactlyWhen` | app/repository/sales_receipt.repository.go:323-336 | Deleting a receipt that another transaction deleted meanwhile leaves an invoice it had a share in right if and only if nothing is recorded on that invoice any more |
| `RaceOutcomes.SecondVerifyConservesExactlyWhen` | app/repository/sales_payment.repository.go:139-179 | Verifying a payment that was verified meanwhile keeps its invoice right if and only if the amount is zero |
| `RaceOutcomes.DeletingTwiceLosesExactlyWhen` | app/repository/sales_receipt.repository.go:323-336 | From any consistent ledger any live receipt can be deleted by two transactions that both commit; each invoice ends at its balance less twice the share, clamped, and this is the recorded money if and only if the share was zero or all that was paid |
| `RaceOutcomes.VerifyingTwiceCountsTwice` | app/repository/sales_payment.repository.go:139-179 | Any pending payment that fits its invoice twice can be verified by two transactions that both commit: paid grows by twice the recorded amount |
| `RaceOutcomes.JobRunsRequest` | app/repository/sales_receipt.repository.go:207-336 | The transactions of these interleavings run the balance changes of the requests they stand for |
| `Deadlock.OneSidedRequestsAreOrdered` | app/repository/sales_receipt.repository.go:189-249 | Receipt creates, receipt deletes and payment verifies lock invoices in ascending order |
| `Deadlock.EditsAreOrderedExactlyWhen` | app/repository/sales_receipt.repository.go:254-318 | A receipt edit locks in ascending order if and only if every newly named invoice comes after all old ones |
| `Deadlock.GetsStuckExactlyWhen` | app/repository/sales_receipt.repository.go:189-203 | A transaction that succeeds alone can, in some interleaving with ordered transactions, wait in a cycle if and only if it does not lock in ascending order |
| `Deadlock.EditsNeverDeadlockExactlyWhen` | app/repository/sales_receipt.repository.go:254-318 | A receipt edit that would be accepted alone can never be in a deadlock with ordered transactions if and only if every newly named invoice comes after all old ones |
| `Deadlock.NoWaitCycle` | app/repository/sales_receipt.repository.go:189-203 | While all programs lock in order, no interleaving reaches a cycle of waiting transactions |
| `Deadlock.CreatesDeletesVerifiesNeverDeadlock` | app/repository/sales_receipt.repository.go:189-249 | Runs made of receipt creates, receipt deletes and payment verifies never deadlock, in any interleaving |
| `Deadlock.SomeTransactionCanMove` | app/repository/sales_receipt.repository.go:189-203 | While any transaction is running, some transaction can act or commit |
| `Deadlock.EditsCanDeadlock` | app/repository/sales_receipt.repository.go:254-318 | Two concrete receipt edits, on a ledger that meets the invariant, that end up waiting for each other |
| `RevertRaces.AtOnceIsTheRevert` | app/service/sales_invoice.service.go:110-122 | With nothing in between, the look and the write are the revert call |
| `RevertRaces.AtOnceIsThePayment` | app/service/sales_payment.service.go:15-29 | With nothing in between, the look and the insert are the creation of a payment |
| `RevertRaces.WriteKeepsInvExactlyWhen` | app/repository/sales_invoice.repository.go:307-324 | Writing the draft status keeps the ledger consistent if and only if nothing is recorded on the invoice |
| `RevertRaces.WriteMovesNoMoney` | app/repository/sales_invoice.repository.go:307-324 | Either way every balance still is the recorded money |
| `RevertRaces.InsertKeepsInvExactlyWhen` | app/repository/sales_payment.repository.go:27-73 | Inserting a payment that was checked earlier keeps the ledger consistent if and only if its invoice is not a draft |
| `RevertRaces.DraftsStayClearExactlyWhen` | app/repository/references.go:185-202 | Over every interleaving, the ledger is consistent after every event, drafts without money included, if and only if every draft status is written while nothing is recorded on its invoice and every payment is inserted while its invoice is not a draft |
| `RevertRaces.OthersRecordNothing` | app/repository/sales_receipt.repository.go:27-336 | Creating a payment for an invoice and creating or editing a receipt that names it are the only calls that can put money on it |
| `RevertRaces.UnovertakenLooksAreSafe` | app/repository/references.go:185-202 | When no such call comes between the look and the write of a revert, and no revert between the look and the insert of a payment, no draft ever carries money |
| `RevertRaces.OvertakenRevertLeavesMoney` | app/repository/references.go:185-202 | A concrete run of accepted calls in which a receipt arrives after the look of a revert: the invoice ends as a draft with everything paid |
| `PurchaseLaws.RunKeepsInv` | app/repository/purchase_receipt.repository.go:26-240 | Every sequence of bill and receipt calls keeps the bill invariant |
| `PurchaseLaws.IncrementalIsTheRecompute` | app/repository/purchase_payment_backfill.go:14-37 | After any run, every bill shows as paid the sum of its live receipts, and the backfill changes no row |
| `PurchaseLaws.UnconfirmedBillsAreUnpaid` | app/repository/purchase_invoice.repository.go:294-310 | After any run, a bill that is not confirmed has no live receipts and nothing paid |
| `PurchaseLaws.BillStatusFollowsTheBalance` | app/repository/purchase_invoice_balance.go:33-42 | After any run, a bill's payment status is one function of paid and total |
| `PurchaseLaws.BackfillIsIdempotent` | app/repository/purchase_payment_backfill.go:14-37 | On any state a second backfill changes nothing |
| `PurchaseLaws.BackfillRepairsExactlyWhen` | app/repository/purchase_payment_backfill.go:14-37 | On any state one backfill makes paid the sum of live receipts everywhere if and only if bills without live receipts had nothing paid |
| `PurchaseLaws.BackfillSettlesExactlyWhen` | app/repository/purchase_payment_backfill.go:14-37 | On any state the backfill leaves a bill with both its balance and its status right if and only if they were right before or its live receipts did not add up to its balance |
| `PurchaseLaws.DeletingUndoesCreating` | app/repository/purchase_receipt.repository.go:224-240 | Deleting a purchase receipt right after creating it restores every bill row |
| `PurchaseLaws.DashboardIsTheSumOfOutstanding` | app/repository/purchase_invoice.repository.go:515-552 | After any run, the purchase dashboard's outstanding figure is the sum of what live confirmed bills show as outstanding |
| `BillLifecycle.CreatedBillIsWorthItsDocument` | app/service/purchase_invoice.service.go:21-39 | A new bill is an unpaid live draft worth the rounded line totals less the document discount plus rounded shipping of the submitted document |
| `BillLifecycle.EditedBillIsWorthItsDocument` | app/repository/purchase_invoice.repository.go:119-222 | So is an edited one, with what was paid, its status and every other row as before |
| `BillLifecycle.EditedBillTakesUpTo` | app/repository/purchase_invoice_balance.go:60-80 | After an edit of a confirmed bill a receipt is accepted exactly up to the new total less what was paid |
| `BillLifecycle.CreatedReceiptPays` | app/repository/purchase_receipt.repository.go:26-74 | A new receipt shows what was submitted in the nearest cents and pays its bill by that, and no other bill |
| `BillLifecycle.EditedReceiptPays` | app/repository/purchase_receipt.repository.go:167-221 | An edited receipt gives its old amount back to its old bill and pays the new one |
| `BillLifecycle.StatusMoves` | app/repository/purchase_invoice.repository.go:294-312 | The status of a bill moves by confirm, revert and cancel alone, drafts alone are confirmed, and nothing moves to the status it has |
| `BillLifecycle.CancelledBillIsClosed` | app/service/purchase_invoice.service.go:109-121 | After a cancel, whatever is called, the bill takes no money and adds nothing to what is owed, until it has been reverted and after that confirmed |
| `BillLifecycle.ConfirmedBillIsOpen` | app/service/purchase_invoice.service.go:70-93 | After a confirm exactly the positive receipts of the partner up to total less paid are accepted |
| `BillLifecycle.DeletedBillIsGone` | app/repository/purchase_invoice.repository.go:283-292 | A deleted bill stays deleted, takes no money and adds nothing to what is owed |
| `BillLifecycle.AcceptedExactlyWhen` | app/repository/purchase_receipt.repository.go:26-240 | Any bill or receipt call is accepted if and only if its needs, stated on the rows before it, are met |
| `BillLifecycle.RefusalsAreSo` | app/repository/purchase_receipt.repository.go:26-240 | Whatever a refusal says, the balance it names included, is so |
| `BillRaces.AtOnceAreTheCalls` | app/repository/purchase_receipt.repository.go:167-240 | With nothing in between, the read and the commit of an edit or delete are the calls of the ledger |
| `BillRaces.DeleteKeepsInvExactlyWhen` | app/repository/purchase_receipt.repository.go:224-240 | A delete going by the row it read keeps every balance the sum of the live receipts if and only if what it takes from each bill, which stops at zero, is what the row records there now |
| `BillRaces.ChangeKeepsInvExactlyWhen` | app/repository/purchase_receipt.repository.go:167-221 | So does an edit that is not refused; if the row is deleted by then, if and only if it takes from each bill what it adds |
| `BillRaces.BillsBalanceExactlyWhen` | app/repository/purchase_receipt.repository.go:167-240 | Over every interleaving, every bill shows the sum of its live receipts after every event if and only if every commit meets that condition |
| `BillRaces.WithoutOverlapBillsBalance` | app/repository/purchase_receipt.repository.go:167-240 | It does whenever no other event writes a receipt between a request reading it and committing |
| `BillRaces.DeletingTwiceLosesExactlyWhen` | app/repository/purchase_receipt.repository.go:224-240 | From any consistent state a live receipt can be deleted by two requests that both commit: the bill ends at its balance less twice the amount, stopped at zero, and this is the sum of its receipts if and only if the amount was zero or all that was paid |
| `PurchaseStore.PurchasePaymentStatus` | app/repository/purchase_invoice_balance.go:33-42 | The status switch equals the one status function |
| `PurchaseStore.Store.ApplyPayment` | app/repository/purchase_invoice_balance.go:60-80 | Checks partner, status and balance, then updates one bill in place |
| `PurchaseStore.Store.ReversePayment` | app/repository/purchase_invoice_balance.go:84-102 | Takes an amount back from a bill, clamped at zero |
| `PurchaseStore.Store.CreateReceipt` | app/repository/purchase_receipt.repository.go:26-74 | Creates a receipt and pays its bill, or changes nothing |
| `PurchaseStore.Store.UpdateReceipt` | app/repository/purchase_receipt.repository.go:167-221 | Reverses the old bill, applies to the new one, or changes nothing |
| `PurchaseStore.Store.DeleteReceipt` | app/repository/purchase_receipt.repository.go:224-240 | Gives the amount back and keeps the receipt as deleted |
| `PurchaseStore.Store.CreateBill` | app/service/purchase_invoice.service.go:21-39 | A new bill is a draft with nothing paid and the total of the submitted document |
| `PurchaseStore.Store.EditBill` | app/repository/purchase_invoice.repository.go:119-222 | An edit replaces document, partner and total, the total being that of the submitted document, keeps what is paid and refreshes the payment status |
| `PurchaseStore.Store.ConfirmBill` | app/service/purchase_invoice.service.go:70-93 | Confirming recalculates the stored document first |
| `PurchaseStore.Store.RevertBill` | app/service/purchase_invoice.service.go:95-107 | Back to draft is refused while the bill has live receipts |
| `PurchaseStore.Store.SetStatus` | app/repository/purchase_invoice.repository.go:294-312 | A change to draft or cancelled is refused while live receipts exist; then a missing or deleted row is not found; otherwise only the status changes |
| `PurchaseStore.Store.DeleteBill` | app/repository/purchase_invoice.repository.go:283-292 | Deleting keeps the row, marked as deleted |
| `PurchaseStore.Store.CancelBill` | app/service/purchase_invoice.service.go:109-121 | Unlike a sales cancel, refused while the bill has live receipts |
| `PurchaseStore.Store.GroupReceipts` | app/repository/purchase_payment_backfill.go:14-37 | The grouped sum has one entry per bill with a live receipt, holding what these receipts paid |
| `PurchaseStore.Store.BackfillPurchasePayments` | app/repository/purchase_payment_backfill.go:14-37 | The batch statement equals the recompute on every bill |
| `Books.PostedLinesBalance` | app/service/journal.service.go:75-100 | Stored lines that pass validation balance to the cent, although validation only asks for an epsilon |
| `Books.StepKeepsInv` | app/service/journal.service.go:17-114 | Every journal and account call keeps posted entries balanced and lines of live entries on live accounts |
| `Books.RunKeepsInv` | app/service/journal.service.go:17-114 | So does every run |
| `Books.PostedIsFrozen` | app/service/journal.service.go:35-73 | The only thing any call can do to a posted entry is move it back to draft |
| `Books.HeaderTotalsCanDrift` | app/repository/journal.repository.go:330-349 | A concrete posted entry whose cached header total differs from its lines |
| `Books.HeaderAgreesExactlyWhen` | app/repository/journal.repository.go:330-349 | A header total equals the sum of the stored lines if and only if the fractions of a cent lost by the lines add up to at least minus half a cent and less than half a cent |
| `JournalLaws.CreateCarries` | app/service/journal.service.go:17-33 | An accepted entry is a new draft with the submitted date and, line by line, the submitted accounts and nearest cents |
| `JournalLaws.EditCarries` | app/service/journal.service.go:35-50 | An accepted edit leaves the entry a draft with the submitted date, accounts and nearest cents; nothing else changes |
| `JournalLaws.EditedEntryCounts` | app/repository/journal.repository.go:103-167 | Whatever follows, short of another edit, the entry carries what the last edit submitted, and while posted and live it counts in exactly the windows that contain the submitted date |
| `JournalLaws.CreatedEntryCounts` | app/service/journal.service.go:17-33 | The same for a new entry |
| `JournalLaws.PostingAddsItsLines` | app/service/journal.service.go:75-100 | Posting adds the lines of the entry to every account's activity in the windows that contain its date, and to nothing else |
| `JournalLaws.UnpostingTakesThemOut` | app/service/journal.service.go:102-114 | Going back to draft takes them out again |
| `JournalLaws.OnlyPostingMovesFigures` | app/repository/report.repository.go:66-90 | No other call moves a figure of any report window |
| `JournalLaws.DeletedEntryIsGone` | app/service/journal.service.go:60-73 | A deleted entry stays deleted, counts nowhere and takes no call |
| `JournalLaws.DeletedAccountIsGone` | app/repository/account.repository.go:152-172 | A deleted account stays deleted and never gets another line |
| `JournalLaws.ParentsAreAlwaysLive` | app/repository/account.repository.go:59-172 | After any run no live account has a deleted or missing parent |
| `JournalLaws.SystemAccountsStay` | app/repository/account.repository.go:59-172 | A seeded account stays live and in its group, whatever is called |
| `JournalLaws.AccountEditTakesEffect` | app/repository/account.repository.go:59-106 | An account edit takes effect in the submitted fields and in no other |
| `JournalLaws.SeedingFollowsTheTemplate` | app/repository/account.repository.go:207-244 | Seeding an empty chart gives one live system account per template row, below the account of its parent row |
| `JournalLaws.AcceptedExactlyWhen` | app/service/journal.service.go:17-177 | Any journal or account call is accepted if and only if its needs, stated on the book before it, are met |
| `JournalLaws.RefusalsAreSo` | app/service/journal.service.go:17-177 | Whatever a refusal says, the line or the sums it names included, is so |
| `JournalStore.ValidateLines` | app/service/journal.service.go:148-177 | The validation loop reports the first fault in source order |
| `JournalStore.CheckAccountsActive` | app/service/journal.service.go:116-137 | Counting distinct ids against active rows accepts exactly lists whose accounts are all live and active |
| `JournalStore.Store.CreateEntry` | app/service/journal.service.go:17-33 | A new entry is validated and stored as a draft with the submitted date and lines in nearest cents, or refused |
| `JournalStore.Store.EditEntry` | app/service/journal.service.go:35-50 | Only drafts can be edited; an accepted edit leaves a live draft with the submitted date and, line by line, the submitted accounts and nearest cents |
| `JournalStore.Store.PostEntry` | app/service/journal.service.go:75-100 | Posting validates the stored lines again |
| `JournalStore.Store.BackToDraft` | app/service/journal.service.go:102-114 | Only posted entries go back to draft |
| `JournalStore.Store.DeleteEntry` | app/service/journal.service.go:60-73 | Posted entries are not deleted |
| `JournalStore.Store.BuildLines` | app/repository/journal.repository.go:330-349 | The loop that stores lines in cents and sums the submitted amounts for the header |
| `JournalStore.Store.CreateAccount` | app/repository/account.repository.go:31-57 | A new account needs a live parent, if it names one |
| `JournalStore.Store.SeedAccounts` | app/repository/account.repository.go:207-244 | The chart template goes in once, children after their parents |
| `JournalStore.Store.EditAccount` | app/repository/account.repository.go:59-106 | System accounts keep their group; no account becomes its own parent |
| `JournalStore.Store.DeleteAccount` | app/repository/account.repository.go:152-172 | An account with children, journal lines of live entries or other uses is kept |
| `JournalStore.Store.CountJournalReferences` | app/repository/references.go:58-66 | The reference count is positive exactly when a live entry uses the account |
| `ReportLaws.DebitsAreCredits` | app/repository/report.repository.go:66-90 | In every window the live accounts were debited what they were credited: counting by account and by entry agree |
| `ReportLaws.TrialBalanceBalances` | app/service/report.service.go:37-58 | Each column pair of a trial balance has equal totals, for any dates |
| `ReportLaws.AssetsAreClaims` | app/service/report.service.go:98-140 | Assets equal liabilities plus equity plus net profit, for every window |
| `ReportLaws.EveryRunBalances` | app/service/report.service.go:98-140 | After every run and for every as-of date the two totals of the balance sheet are equal |
| `ReportLaws.AccountHasItsRow` | app/repository/report.repository.go:66-90 | Every live account has its row, with its signed activity, in the sheet or in the profit rows |
| `ReportLaws.NetProfitAddsUp` | app/service/report.service.go:142-182 | The profits of adjacent periods add up to the profit of both |
| `ReportLaws.SortSorts` | app/repository/report.repository.go:107-122 | Ledger lines are the account's postings of the window, in date order |
| `ReportLaws.RunningIsActivity` | app/service/report.service.go:75-90 | After the last line of a day, the running balance has moved by the account's signed activity up to that day |
| `ReportLaws.ClosingIsActivity` | app/service/report.service.go:60-96 | What the closing balance is for any dates, inverted ranges included |
| `ReportLaws.LedgerContinues` | app/service/report.service.go:60-96 | The next period opens where the last one closed |
| `ReportLaws.LedgerMatchesTrialExactlyWhen` | app/service/report.service.go:37-96 | Ledger closing equals the signed trial-balance ending if and only if nothing moved strictly inside an inverted range; always for start <= end + 1 |
| `ReportLaws.SheetMatchesTrialExactlyWhen` | app/service/report.service.go:98-140 | The balance-sheet figure equals the trial-balance ending if and only if nothing moved the account before year 1 |
| `ReportRows.TrialBalanceListsAccounts` | app/repository/report.repository.go:20-60 | The trial balance has one row for each live account with something to show, in account order, and no others; each column of a row is what that account was debited or credited in the column's dates |
| `ReportRows.SectionListsItsGroup` | app/service/report.service.go:106-125 | A section of a statement has one row for each live account of its group with a balance, showing that balance, and its total adds them up |
| `ReportRows.LedgerShowsEachLine` | app/repository/report.repository.go:107-122 | The ledger of an account shows every line of posted live entries within the period exactly once, with its date and amounts, in date order |
| `ReportService.TrialBalance` | app/service/report.service.go:37-58 | Lists each live account with a non-zero column exactly once, under its own id and with its own activity per column, and nothing else; sums every column; in any consistent book it reports balanced |
| `ReportService.GeneralLedger` | app/service/report.service.go:60-96 | Opening, every running balance and closing, or nothing for an unknown account |
| `ReportService.FillSections` | app/service/report.service.go:106-125 | Rows land in their group's section, zero balances left out, totals exact |
| `ReportService.CumulativeNetProfit` | app/service/report.service.go:167-182 | Income minus expense since the zero time |
| `ReportService.BalanceSheet` | app/service/report.service.go:98-140 | Sections, the profit line and both totals; in any consistent book it reports balanced |
| `ReportService.ProfitLoss` | app/service/report.service.go:142-165 | Income and expense sections of a window and their difference |
| `Taxes.StepKeepsInv` | app/repository/tax.repository.go:35-206 | Every create, edit, delete and seed keeps each live compound the sum of two different live single taxes |
| `Taxes.RunKeepsInv` | app/repository/tax.repository.go:35-206 | So does every run |
| `Taxes.RefreshRestoresSums` | app/repository/tax.repository.go:343-360 | Changing a single's rate and refreshing its compounds makes every compound rate a sum again |
| `Taxes.RefreshRepairs` | app/repository/tax.repository.go:343-360 | Whatever the outdated rates of its compounds, refreshing a single brings every compound back to the sum of its components |
| `Taxes.StoredRate` | app/model/tax.go:61 | A validated rate is kept to the nearest ten-thousandth, at most 100 percent |
| `TaxEdits.UpdatedSingleTakesEffect` | app/repository/tax.repository.go:101-131 | An update of a single tax stores the rate within half a ten-thousandth, every other submitted field as given, and keeps every field that was not submitted |
| `TaxEdits.CompoundsFollow` | app/repository/tax.repository.go:343-360 | Every live compound made of that tax then carries its new rate plus the rate of the other component, and nothing else of it changes |
| `TaxEdits.OtherTaxesStay` | app/repository/tax.repository.go:68-145 | No other row changes |
| `TaxEdits.UpdatedCompoundTakesEffect` | app/repository/tax.repository.go:68-100 | An updated compound has the submitted components, two different live singles, and the sum of their rates |
| `TaxEdits.CreatedSingleCarries` | app/repository/tax.repository.go:35-66 | A new single tax carries what was submitted, with the defaults for what was left out |
| `TaxEdits.CreatedCompoundCarries` | app/repository/tax.repository.go:45-55 | A new compound names the submitted singles and carries the sum of their rates |
| `TaxEdits.SeedingFollowsTheTemplate` | app/repository/tax.repository.go:211-253 | Seeding a table without live taxes adds one built-in tax per template row |
| `TaxEdits.DeletedTaxIsGone` | app/repository/tax.repository.go:180-206 | A deleted tax stays deleted and can't become part of a compound |
| `TaxEdits.BuiltInTaxStays` | app/repository/tax.repository.go:68-206 | A built-in tax stays live with its name and kind, and a tax on a document line is not deleted |
| `TaxEdits.AcceptedExactlyWhen` | app/repository/tax.repository.go:35-253 | Any call on the table is accepted if and only if its needs, stated on the table before it, are met |
| `TaxEdits.RefusalsAreSo` | app/repository/tax.repository.go:35-253 | Whatever a refusal says is so |
| `TaxStore.ResolveComponents` | app/repository/tax.repository.go:284-309 | The loop over the found rows accepts exactly two different live single taxes and returns their summed rate |
| `TaxStore.EditSingleRow` | app/repository/tax.repository.go:101-131 | Each submitted field of a single tax in turn, or the account fault |
| `TaxStore.Store.Apply` | app/repository/tax.repository.go:35-206 | Any call updates the table in place as specified and keeps its invariant |
| `TaxStore.Store.Update` | app/repository/tax.repository.go:68-145 | System locks, the compound and single halves, and the refresh after a rate change; an accepted update of a single tax takes over every submitted field and keeps the others |
| `TaxStore.Store.CreateSingle` | app/repository/tax.repository.go:35-66 | A single tax needs two live accounts and gets the default kind and method |
| `TaxStore.Store.CreateCompound` | app/repository/tax.repository.go:45-55 | A compound is created from a resolved pair, exclusive, with the summed rate |
| `TaxStore.Store.SeedDefaults` | app/repository/tax.repository.go:211-253 | The default taxes go in only when there is no live tax |
| `TaxStore.Store.Delete` | app/repository/tax.repository.go:180-206 | A used or built-in tax, and a component of a live compound, is kept |
| `TaxStore.Store.RefreshCompoundRates` | app/repository/tax.repository.go:343-360 | One statement over every live compound that refers to the single |
| `TaxLaws.SplitTotal` | utils/linecalc.go:114-130 | Replacing a compound by its components lowers the line total by exactly the inclusive components' share of the net amount |
| `TaxLaws.SplittingIsHarmless` | utils/linecalc.go:69-189 | Without inclusive components the two forms give the same verdict and amounts on every document |
| `TaxLaws.InclusiveShareShows` | utils/linecalc.go:114-130 | For any compound with an inclusive share, a concrete document whose totals differ between the two forms |
| `TaxLaws.CompoundIsItsComponentsExactlyWhen` | app/repository/tax.repository.go:45-55 | For a live active compound, charging it and charging its two components agree on every document if and only if both components are active and the inclusive ones have rate zero |
| `TaxLaws.InactiveComponentShows` | app/repository/sales_invoice.repository.go:334-350 | With a deactivated component a concrete document is accepted with the compound and refused with its components |
| `Numbering.PrintParses` | app/repository/journal.repository.go:307-323 | Zero-padded print and parse undo each other |
| `Numbering.EveryNumberReadsBack` | app/repository/journal.repository.go:307-323 | Every 64-bit integer, negative ones included, is printed at least three wide and padded no further, and parses back |
| `Numbering.OnlyNumbersAreRead` | app/repository/journal.repository.go:312-322 | A plus sign is read over; a text with anything but digits after its first character is no number |
| `Numbering.PlainPatternMatches` | app/repository/journal.repository.go:303-306 | A prefix scan matches place by place, an underscore standing for any character |
| `Numbering.PercentStandsForAnyText` | app/repository/journal.repository.go:303-306 | A percent sign in the book code stands for any text |
| `Numbering.EscapedMatchesItself` | app/repository/journal.repository.go:303-306 | A character after a backslash stands for itself |
| `Numbering.GeneratedIsNext` | app/repository/journal.repository.go:291-323 | Short of the wrap-around, a generated number is its prefix and, padded to three digits, one more than the highest trailing number the scan matches, or one |
| `Numbering.NumberNamesItsParts` | app/repository/journal.repository.go:297-308 | A number can be of one book code, month, year and sequence only |
| `Numbering.Prefixes` | app/repository/journal.repository.go:295-301 | What prefixes look like, on two concrete dates |
| `Numbering.NextSequence` | app/repository/journal.repository.go:311-323 | The max-scan loop yields one more than the highest trailing number, in 64 bits |
| `Numbering.GenerateNumber` | app/repository/journal.repository.go:291-308 | A generated number is the prefix with the next sequence of the scanned numbers |
| `Numbering.GeneratedIsNewExactlyWhen` | app/repository/journal.repository.go:291-308 | A generated number is not in use if and only if not both the scan reached the largest integer and the wrapped number is in use |
| `Numbering.AlwaysNewExactlyWhen` | app/repository/journal.repository.go:297-308 | Short of the wrap-around, generated numbers are always new if and only if the LIKE pattern matches its own prefix |
| `Numbering.NoBackslashSeesItself` | app/repository/journal.repository.go:297-303 | It does for every book code without a backslash, wildcards included |
| `Numbering.NumbersOfARunIncrease` | app/repository/journal.repository.go:291-323 | Along any run of generated, typed and discarded numbers, an undiscarded generated number is lower than every later one for the same book and month |
| `Numbering.LaterNumbersAreHigher` | app/repository/journal.repository.go:291-323 | While a generated number stays in use, the next scan for its book and month finds a higher largest number |
| `Numbering.BackslashRepeatsANumber` | app/repository/journal.repository.go:297-303 | A concrete book code for which the first number is generated twice |
| `Numbering.WrapRepeatsANumber` | app/repository/journal.repository.go:311-323 | A number ending in the largest integer makes the next two generated numbers equal |
| `Contacts.AcceptedExactlyWhen` | app/repository/contact_person.repository.go:164-230 | A submitted list is accepted if and only if ids are known and not repeated, each change is permitted and named, and each written key is free at that moment |
| `Contacts.AcceptedBySubmittedFields` | app/repository/contact_person.repository.go:164-230 | The same in terms of the submitted name, email and phone: a changed row must not carry those of an earlier row, or of a contact that a later row has yet to change |
| `Contacts.RefusalsAreSo` | app/repository/contact_person.repository.go:164-230 | Whatever a refusal says is so |
| `Contacts.LowerComparesUpToCase` | app/model/index.go:140-144 | The index compares names and emails up to the size of letters (of the basic Latin alphabet) and phones exactly |
| `Contacts.ActiveContactsAreTheList` | app/repository/contact_person.repository.go:164-230 | On success the partner's active contacts are exactly the list, each column holding the trim of the field submitted for it; the rest of the partner is soft-deleted and all other rows are untouched |
| `Contacts.OnlyPermittedChanges` | app/repository/contact_person.repository.go:187-227 | Without a permission that kind of change does not happen |
| `Contacts.SyncKeepsNoDuplicates` | app/repository/contact_person.repository.go:186-227 | No partner has two active contacts with the same name, email and phone at the end |
| `Contacts.SwappingNamesIsRefused` | app/repository/contact_person.repository.go:186-219 | Swapping two names is refused although neither list has a duplicate |
| `ContactStore.CheckList` | app/repository/contact_person.repository.go:173-184 | The first loop finds the first unknown or repeated id and builds the keep set |
| `ContactStore.Store.DeleteMissing` | app/repository/contact_person.repository.go:186-197 | Soft-deletes what the list leaves out, in any order, or refuses |
| `ContactStore.Store.SaveRow` | app/repository/contact_person.repository.go:199-228 | One row: skipped, updated, created or refused |
| `ContactStore.Store.SyncContacts` | app/repository/contact_person.repository.go:164-230 | The three loops equal the specification |
| `ContactStore.Store.SavePartner` | app/repository/mitra.repository.go:75-101 | On success every listed contact is stored field by field as submitted; any refusal leaves the table as it was |
| `Memberships.LastByEmail` | app/service/membership_users.service.go:380-387 | The row that represents an email in a company is its last live one: no later row carries the email; or there is none |
| `Memberships.FindUser` | app/repository/membership.repository.go:32-39 | The first live row of a user in a company, or none |
| `MembershipLaws.RunKeepsInv` | app/repository/membership.repository.go:183-223 | After any run both unique indexes hold and a live row is activated exactly when it has a user |
| `MembershipLaws.StepKeepsInv` | app/repository/membership.repository.go:183-223 | Every call keeps the unique indexes and the shape of a row |
| `MembershipLaws.NothingToDedupe` | app/repository/membership.repository.go:211-220 | While the indexes hold, the upsert's deduplication has nothing to delete |
| `MembershipLaws.PlanIsOk` | app/service/membership_users.service.go:403-449 | A planned sync has at most one change per company, each on the row as it was loaded |
| `AccessCache.StepKeepsCoherence` | app/service/membership.service.go:543-556 | Every call drops or keeps cache entries so that all that remain agree with the rows |
| `AccessCache.CacheNeverLies` | app/service/membership.service.go:75-143 | After any run every cached answer, "no access" included, agrees with the live row on access, activation, ban and, without fallback, role |
| `Standings.LookupTellsTheStanding` | app/service/membership.service.go:75-143 | A lookup that is not cached tells the user's standing, with the fallback where the role is unset or unknown, and caches what it tells |
| `Standings.CachedLookupAndExpiry` | app/service/membership.service.go:84-89 | A lookup that is cached changes nothing, and an expiry forgets that one answer only |
| `Standings.CachedAnswerLetsInExactlyWhen` | app/service/membership.service.go:75-143 | After any run, a cached answer lets a user in if and only if the rows do, and names the user's own role |
| `AccessCache.CachedIsFresh` | app/service/membership.service.go:84-142 | A cached lookup and a fresh one give the same answer |
| `SyncLaws.SyncNeverStopsHalfway` | app/service/membership_users.service.go:365-491 | No write of a sync fails if and only if its plan is accepted; a sync whose plan is refused reports that refusal and changes nothing |
| `SyncLaws.StaysExactlyWhen` | app/service/membership_users.service.go:335-339 | After an accepted sync the member is still found in the company of the call if and only if the sync did not drop the member's own row there |
| `SyncLaws.ErrorAfterWritingExactlyWhen` | app/service/membership_users.service.go:451-493 | A sync reports an error although it changed rows if and only if its plan was accepted and drops the row it was called on; the error is then that there is no such member |
| `SyncLaws.OwnCompanyNotRequested` | app/service/membership_users.service.go:437-449 | For a member with an email, that is when the company of the call is visible to the caller and not among the requested ones |
| `MembershipEdgeCases.TransferReportsAnError` | app/service/membership_users.service.go:492-492 | A run of accepted calls by entitled members, and a sync from one company to another alone, which is carried out and reports that there is no such member |
| `CacheRaces.FillKeepsCoherenceExactlyWhen` | app/service/membership.service.go:84-142 | Storing an answer keeps the cache truthful if and only if the answer still agrees with the rows |
| `CacheRaces.CacheNeverLiesExactlyWhen` | app/service/membership.service.go:75-143 | With lookups that store their answer later, every cached answer agrees with the rows after every event if and only if every stored answer is still true when it is stored |
| `CacheRaces.UnovertakenLookupsAreSafe` | app/service/membership.service.go:75-143 | It does whenever no row of a user in a company changes while a lookup of that user there is under way |
| `CacheRaces.OvertakenLookupLetsIn` | app/service/membership.service.go:84-142 | A run of accepted calls by entitled members in which a lookup answers, the member is deactivated, and the answer is stored: the cache lets the deactivated member in |
| `SyncLaws.VerdictIgnoresOrder` | app/service/membership_users.service.go:403-449 | Whichever order the two map loops take, a sync is accepted or refused alike |
| `SyncLaws.InvitesNeverStopHalfway` | app/service/membership_users.service.go:174-272 | An accepted multi-company invitation adds exactly one pending row per planned company |
| `SyncLaws.SyncByCompany` | app/service/membership_users.service.go:365-493 | Company by company, under any emails: its one planned change happened and nothing else did, an addition rewriting the user's own row where there is one |
| `SyncLaws.SyncIsExact` | app/service/membership_users.service.go:365-493 | An accepted sync leaves the person in exactly the requested companies with the requested roles among those visible; other companies and the rows of unrelated people are untouched |
| `SyncLaws.OthersUntouchedExactlyWhen` | app/service/membership_users.service.go:365-493 | An accepted sync leaves the rows of other users as they are if and only if in no company it changes the email leads to one of them |
| `Standings.SyncMovesStandings` | app/service/membership_users.service.go:451-491 | After an accepted sync every user stands in every company as read off the rows before it: in an added company a known user is activated and banned exactly if the synced row was, in a kept one only the role is new, in a dropped one the membership is over |
| `Standings.AddedMayEnterExactlyWhen` | app/service/membership_users.service.go:468-484 | In every added company a known user may enter if and only if the synced row was not banned |
| `Standings.AddedIsInvited` | app/service/membership_users.service.go:468-484 | A person without a user gets a pending row in every added company, with the same ban flag |
| `Standings.AddedKeepsSeats` | app/service/membership_users.service.go:405-418 | Every company a sync adds stays within its user limit |
| `Standings.InvitingAddsOnePending` | app/service/membership.service.go:275-338 | An invitation adds one pending row in the given role, moves nobody's standing and keeps the company within its user limit |
| `Standings.InvitingManyAddsPending` | app/service/membership_users.service.go:174-272 | An invitation to several companies does so in each, in the role of its first grant and switched on or off as asked |
| `Standings.AcceptingGivesTheInvitedRole` | app/service/membership.service.go:375-406 | Accepting gives the user the invited role, and entry unless the invitation was switched off; nobody else moves |
| `Standings.RoleChangeMovesTheRole` | app/service/membership.service.go:434-465 | A role change moves the role of that member and nothing else |
| `Standings.RemovalEndsTheStanding` | app/service/membership.service.go:467-487 | A removal ends the standing of that member and nothing else |
| `Standings.SwitchingDecidesEntry` | app/service/membership_users.service.go:502-529 | Switching a member on or off decides whether they may enter, and nothing else |
| `Standings.CreatorIsIn` | app/service/membership.service.go:188-222 | The creator of a company may enter it at once, in the owner role when it is known |
| `MembershipRules.SyncAcceptedExactlyWhen` | app/service/membership_users.service.go:365-449 | A sync is accepted if and only if somebody else is synced, the grants can be read, and every company allows its change |
| `MembershipRules.InvitingManyAcceptedExactlyWhen` | app/service/membership_users.service.go:174-237 | An invitation to several companies is accepted if and only if each one, by its first grant, may be invited to |
| `MembershipRules.AcceptingAcceptedExactlyWhen` | app/service/membership.service.go:375-406 | An invitation can be accepted if and only if its token is open and the user is not in the company |
| `MembershipRules.RemovalAcceptedExactlyWhen` | app/service/membership.service.go:467-502 | A member can be removed unless that takes away the last activated owner |
| `MembershipRules.RefusalsAreSo` | app/service/membership_users.service.go:174-529 | Whatever a refusal of a membership call says is so |
| `MembershipEdgeCases.BlankEmailsHitOtherPeople` | app/service/membership_users.service.go:380-387 | A run of accepted calls by entitled members in which syncing one founder without an email removes another from a company the first was never in |
| `OwnerLaws.AnotherOwner` | app/service/membership.service.go:490-502 | With two counted owners, any one of them can go |
| `OwnerLaws.EveryCompanyKeepsAnOwner` | app/service/membership.service.go:434-502 | Once its creator is linked, a company has an activated owner row at the end of every run, given one owner role id and one email per person |
| `OwnerLaws.SyncLosesOwnerExactlyWhen` | app/service/membership_users.service.go:403-491 | An accepted sync costs a company its last activated owner if and only if it adds the company, under an email unknown there, over the owner's own row |
| `MembershipEdgeCases.TwoEmailsCanLoseTheOwner` | app/service/membership_users.service.go:468-484 | A run of accepted calls by entitled members in which it does |
| `UsableOwners.CallKeepsUsableOwnerExactlyWhen` | app/service/membership.service.go:434-502 | After any accepted call a company has an owner who can enter if and only if another row is one or the row the call wrote, stated for each call, is one as written |
| `UsableOwners.DeactivatingKeepsUsableOwnerExactlyWhen` | app/service/membership_users.service.go:502-529 | A deactivation leaves an owner who can enter if and only if another one exists |
| `UsableOwners.RemovingKeepsUsableOwnerExactlyWhen` | app/service/membership.service.go:467-487 | So does a removal |
| `UsableOwners.RoleChangeKeepsUsableOwnerExactlyWhen` | app/service/membership.service.go:434-465 | A role change also leaves one when it makes an activated, unbanned member an owner |
| `UsableOwners.SyncDecides` | app/service/membership_users.service.go:365-493 | The same for an accepted sync, company by company, from the rows before it |
| `UsableOwners.UsableOwnerRemainsExactlyWhen` | app/service/membership.service.go:490-502 | Over a whole run a company keeps an owner who can enter after every call if and only if no accepted call unmakes its last one |
| `UsableOwners.WhatTheGuardMisses` | app/service/membership.service.go:490-502 | The guard lets the last such owner go only because it counted a banned owner beside him or because a sync added the company over his own row |
| `MembershipEdgeCases.EveryOwnerCanBeBanned` | app/service/membership.service.go:490-502 | Eight accepted calls by entitled members after which every counted owner is banned |
| `MembershipStore.IndexByCompany` | app/service/membership_users.service.go:380-387 | The loop that maps each company to its last row |
| `MembershipStore.PlanWantLoop` | app/service/membership_users.service.go:403-436 | The first map loop, in any order: it passes exactly when every wanted company passes, and otherwise reports one company's refusal |
| `MembershipStore.PlanDropLoop` | app/service/membership_users.service.go:437-449 | The second map loop: it passes exactly when every company on record that is no longer wanted may be dropped |
| `MembershipStore.Store.ResolveAccess` | app/service/membership.service.go:75-143 | A hit, a computed miss, or an uncached unresolved answer |
| `MembershipStore.Store.UpsertRow` | app/repository/membership.repository.go:183-223 | Insert or patch, deduplicate, or refuse and change nothing |
| `MembershipStore.Store.LinkCompanyCreator` | app/service/membership.service.go:188-222 | The creator's row becomes an activated owner row and the user's entries are purged |
| `MembershipStore.Store.InviteOne` | app/service/membership.service.go:275-338 | All refusals in source order, then one pending row |
| `MembershipStore.Store.InviteMulti` | app/service/membership_users.service.go:174-272 | Plans every company first, then writes |
| `MembershipStore.Store.PlanInvites` | app/service/membership_users.service.go:199-237 | The plan loop: one invitation per company, the first grant counting, or the first refusal |
| `MembershipStore.Store.InvalidateMember` | app/service/membership.service.go:547-556 | Afterwards nothing is cached for the user in the company and every other entry is as before; if those agree with the rows, the whole cache does |
| `MembershipStore.Store.PurgeUserAccess` | app/service/membership.service.go:543-545 | Afterwards nothing is cached for the user and every entry of another user is as before; if those agree with the rows, the whole cache does |
| `MembershipStore.CollectWant` | app/service/membership_users.service.go:390-401 | The requested role per company, a later grant winning, or the first refusal |
| `MembershipStore.CheckWant` | app/service/membership_users.service.go:405-435 | What one wanted company calls for, or why it is refused |
| `MembershipStore.CheckDrop` | app/service/membership_users.service.go:437-448 | What one company that is no longer wanted calls for, or why it is refused |
| `MembershipStore.Store.AcceptInvite` | app/service/membership.service.go:375-406 | The invited row gets its user, once |
| `MembershipStore.Store.UpdateMemberRole` | app/service/membership.service.go:434-465 | Role, member and owner guard checks, then the write and the dropped entry |
| `MembershipStore.Store.RemoveMember` | app/service/membership.service.go:467-487 | Member and owner guard checks, then the soft delete and the dropped entry |
| `MembershipStore.Store.SetMemberActive` | app/service/membership_users.service.go:502-529 | Refused for the caller's own row and by the owner guard; otherwise the ban flag is written and the entry dropped |
| `MembershipStore.Store.WriteChanges` | app/service/membership_users.service.go:451-491 | The write loop, cache invalidation included |
| `MembershipStore.Store.SyncAssignments` | app/service/membership_users.service.go:365-493 | Plan, validate, write, look the member up again; an error comes with a completed write exactly when the sync dropped the row it was called on; keeps the indexes and the cache coherent; says for every user and company which role, activation and ban flag an accepted sync leaves |

## Left out

- SyncLaws.SyncIsExact: asks for a non-blank email, because the code finds the person's rows by email; `SyncLaws.SyncByCompany` and `SyncLaws.OthersUntouchedExactlyWhen` say without it what changes.
- OwnerLaws.EveryCompanyKeepsAnOwner: assumes that the owner role always resolves to the same id and that a person uses one email, because the guard does nothing when the role service cannot be reached.
- Floating point: amounts are exact reals or whole cents, so the error of binary floating point itself is not modelled.
- More than one company per ledger, book, tax table or contact list: every query is scoped to one company.
- Number uniqueness by case-folded comparison, due dates, names, codes, contact snapshots and idempotency keys on documents: they do not touch balances.
- Case folding beyond ASCII in contact keys, and Unicode white space beyond Latin-1 in trimming.
- Emails in memberships are taken trimmed and lower-case, as the code stores them; names, phones and invitation mails are left out, and a token stands for the row it belongs to.
- Reads between transactions: those that lose or strand money, or let someone in, are modelled in `ReceiptRaces`, `RevertRaces`, `BillRaces` and `CacheRaces`. There, a transaction's writes to the rows it locks are one step at its commit, the several reads of one check are one step, and a membership call writes its row and drops its cache entries in one step; the checks of a confirm, a cancel or a bill's revert, and the reads of two overlapping membership calls, are one step with their writes.
- The expiry of cache entries: it bounds how long an overtaken answer lets someone in.
- Cached permission lists: a role edit drops the role's entry but not the users' entries, so only the fields that come from the membership row are claimed coherent.
- A failing database or cache: statements succeed unless a unique index or a row check refuses them, so the refresh after a tax rate change always follows the change.
- The order of report rows by account code, paging, sorting options and column selection.
- Sales orders, purchase orders, delivery notes, goods receipts, units and bank accounts: the same shapes with fewer rules.
- Free-tier activation and transaction limits: the user limit of a company is an input.
- HTTP handlers, configuration, Redis and role-service clients, uploads, notifications, audit log and templates.
