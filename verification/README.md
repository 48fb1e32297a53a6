# DistriCore, verified

DistriCore is a distributor's back office built on append-only ledgers: balances, stock and
settlement are derived on every read and stored nowhere. This project models its financial and
protocol core in Dafny and proves, for every input and every run, what that core is for.

`dafny verify dfyconfig.toml` checks the whole project.

Money is whole paise, quantities are thousandths, percentages are hundredths, dates are day numbers.
Tables are sequences of rows; a unique index is the check an insert makes; a service under
`@transaction.atomic` is one step that commits whole or leaves everything as it was. Where the source
updates things in place, a class or a loop does so here and is proved against a function, and the laws
are proved about that function.

## What is proved

**The application walk** (`LedgerWalk`, `WalkLaws`, `Reversal`, `Receivables`). One algorithm serves both
ledgers through a four-field policy. Its dictionary, its set and its list of mutable debits compute a closed
form: each live debit keeps `min(r_i, max(0, r_1 + ... + r_i - pool))`, the only settlement that is bounded,
oldest-first and has the right total. Annulled entries are disjoint pairs summing to zero; the balance is the
ledger sum exactly when no live reducing entry is positive; outstanding and credit are never both positive. A
document and the adjustment that cancels it can be inserted anywhere without changing the position, exactly
when they match. The one-pass receivables report equals the per-customer walk, oldest document first and each
aged from its own date. Statements open and close with the ledger's own sums, and join end to end.

**The sync receiver** (`SyncHandlers`, `SyncReceiver`, `SyncInterleaving`, `SyncDispatch`, `SyncPull`). Any
number of interrupted requests followed by a completed one leave what a single uninterrupted request leaves,
in one world; when the world changes in between, exactly what survives is stated. Under any interleaving of
workers, crashes, recoveries and unrelated traffic every effect happens at most once and no verdict is given
for an unfinished row. What the receiver does to deliveries and orders is what the fulfilment desk does, so
the desk's invariants survive serial sync traffic, interruptions included. Keyset paging delivers every
matching row of both collections once, and untouched rows exactly once while others move.

**Documents and books** (`Money`, `Pricing`, `Documents`, `Numbering`, `Books`, `BooksLaws`, `BooksWalk`,
`NumberGuard`, `BillingOffice`). What is accepted, and what it then says, is an if-and-only-if of what was
entered: a line, an order, an invoice, a credit note, a payment. Every document's figures reconcile, and a
line credited over several notes comes back to within half a paisa a note; numbers are 1 to the counter for
each series and financial year, over commits, rollbacks and replays, and every document carries the year of
its own day; documents and ledger rows correspond one to one; no invoice is credited beyond its total. The
last fact is what makes the walk's spill impossible, as of any date, and that is proved too, across both
components: a note is unresolved only while its invoice is not in view.

**Trade and exposure** (`Trade`, `Exposure`, `ExposureLaws`). An order's status, its delivery's flags and the
stock the delivery moved stay in step over every run; a request sent again, whatever happened in between,
changes nothing if it carries its identity. A live order weighs on its customer's exposure at its total,
before and after it is billed, exactly as long as its invoice is absent or uncancelled; over every run the
exposure is the sum of those weights less what was credited and paid.

**Buying** (`Purchasing`, `PurchasingLaws`, `SupplierLaws`, `SupplierWalk`, `PurchasingDesk`). Over every run
no line receives more than was ordered plus the tolerance, and whatever stays within that is accepted; stock,
payables and statuses follow the receipts; an order received whole costs what was agreed, and each further
delivery of a line moves its cost by at most half a paisa; each payment form yields one payment; the
registry's spelling of a supplier payment is the one under which its reversal leaves the walk, and over every
run the walk's position is opening plus receipts less standing payments.

**Words** (`Words`). The amount in lakh and crore can be read back, sign and paise included.

`Foundations.dfy` holds sums and the queryset operations (filter, order, first) everything above uses.

## Where the code does not do what its comments say

- A terminal sync status is not stable under concurrency: a first attempt writes its outcome without the row
  lock, so an accepted row can turn rejected while its visit stays. `VerdictChanges` says exactly when.
- A committed completion can turn REJECTED: if the delivery leaves the actor's scope between the crash and the
  replay, the handler no longer finds it. `ReplayInAnotherWorld` says exactly when.
- A pull since the first page's server time misses a row that was stamped before that time and becomes visible
  at or behind the cursor, because it commits between two pages, or after the last one. `LostExactlyWhen` says
  exactly which rows are lost; `ARowCommittedBehindTheCursorIsLost` is a run that loses one.
- Intra-state, the header's CGST and SGST do not equal the lines' sums once two lines have an odd tax.
  `HeaderAgainstLines` gives the difference, `TwoOddLinesDisagree` a case.
- The two terms of credit exposure do not partition the live orders: an order whose invoice was cancelled is in
  neither, net, though its goods are out, and it can never be invoiced again. `EachOrderCountsOnce` says
  exactly which orders count; `ACancelledOrderWeighsNothing` is a run that leaves one out.
- An order worth less than half a rupee can be dispatched and never invoiced (`InvoiceableExactlyWhen`,
  `AFortyPaiseOrderIsNeverInvoiced`).
- A period whose first day follows its last has figures that need not reconcile (`InvertedPeriodFails`).
- The walk's spill is always zero, as of any date, and what it leaves unresolved is exactly the notes dated by
  then whose invoice is dated later (`WalkAsOf`).
- Document numbers carry two digits of the year, so years a century apart print the same
  (`DefaultNumbersAreDistinct`); within a century the unique index never refuses one (`NumberGuardNeverFires`).

## Model

| member | source | states |
|---|---|---|
| `LedgerWalk.AnnulledEntryIds` | backend/ledger/walk.py:226-256 | the dictionary-and-set loop returns exactly the keys of the declared pairs: last entry its document created, first adjustment that points at it and offsets it |
| `LedgerWalk.ReduceOne` | backend/ledger/walk.py:327-340 | one note takes from its own debit what that debit can bear and puts the rest, or all of it when it names no debit, into the pool |
| `LedgerWalk.Reduce` | backend/ledger/walk.py:326-340 | after every note the mutable debits hold amount less own credits, floored at zero, and the pool holds unresolved credits plus spill |
| `LedgerWalk.SettleOldestFirst` | backend/ledger/walk.py:342-352 | the settling loop with its early break leaves the closed form on every debit and the unspent pool |
| `LedgerWalk.SettledAt` | backend/ledger/walk.py:347-352 | remainder i is min(r_i, max(0, r_1+...+r_i - pool)) |
| `LedgerWalk.Walk` | backend/ledger/walk.py:259-376 | the whole walk returns the closed-form position of the live entries, for any policy |
| `WalkLaws.SettledIsOldestFirst` | backend/ledger/walk.py:347-352 | every remainder is within its debit, and a debit is touched only when all earlier ones are fully settled |
| `WalkLaws.OldestFirstIsUnique` | backend/ledger/walk.py:347-352 | bounded, oldest-first and of the right total leaves one settlement only: the closed form |
| `WalkLaws.AnnulmentsAreDisjointPairs` | backend/ledger/walk.py:206-224 | annulled couples sum to zero, are of two distinct entries, and share none |
| `WalkLaws.CreditsPartition` | backend/ledger/walk.py:327-340 | every reducing amount is credited to exactly one debit or is unresolved |
| `WalkLaws.LiveSumIsLedgerSum` | backend/ledger/walk.py:201-217 | leaving the annulled entries out changes the ledger sum by nothing |
| `WalkLaws.Conservation` | backend/ledger/walk.py:285-376 | outstanding less credit is the ledger sum but for wrong-signed reducing entries; total = max(0, balance), credit = max(0, -balance) |
| `WalkLaws.LedgerInvariant` | backend/ledger/walk.py:299-340 | the balance is the ledger sum if and only if no live reducing entry is positive |
| `WalkLaws.OpenItemsAreBounded` | backend/ledger/walk.py:355-367 | each open item comes from one live entry and shows its key, date, kind, narration and amount; its age added to that date is the report day; and it is open for more than nothing and at most its amount |
| `WalkLaws.OpenItemsTotal` | backend/ledger/walk.py:368-368 | the items' outstanding amounts sum to the total |
| `WalkLaws.PositionAddsUp` | backend/ledger/walk.py:355-376 | the position names its party and day, its total is the sum of its items, items appear exactly for a positive balance and credit exactly for a negative one |
| `WalkLaws.AgesDoNotIncrease` | backend/ledger/walk.py:355-367 | of a ledger in date order the open items keep that order, so ages never increase down the list, and none is negative when every entry is dated by the report day |
| `Reversal.LiveWithPair` | backend/ledger/walk.py:229-256 | inserting a document's entry and an adjustment pointing at it, anywhere, leaves the live ledger unchanged exactly when the pair matches |
| `Reversal.ReversalRestoresThePast` | backend/ledger/walk.py:201-204 | open items, original dates, ages, credit and balance are those of the ledger without the pair |
| `Receivables.SharedTargets` | backend/receivables/selectors.py:183-201 | one credit-note map for all customers gives each the position its own map gives |
| `Receivables.BatchGroup` | backend/receivables/selectors.py:303-323 | one customer's rows out of the batch-ordered scan are that customer's ledger in its own order |
| `Receivables.ReceivablesPosition` | backend/receivables/selectors.py:277-338 | the one-pass report equals the per-customer walk, customer by customer and in order, settled ones kept or dropped |
| `Receivables.LedgerIsInOrder` | backend/receivables/selectors.py:207-211 | the query hands the walk entries dated by the day asked for, ordered by date and then key |
| `BooksWalk.OldestIsListedFirst` | backend/receivables/selectors.py:204-217 | a customer's open documents come oldest first, each aged from its date and none negatively; the customer is listed without the settled exactly when the balance is not nil |
| `Receivables.StatementIsTheLedger` | backend/receivables/selectors.py:354-381 | opening is the sum of the customer's rows dated strictly before the first day, closing of those up to the last, and the entries are the rows in between, each as often as the ledger holds it, in date order |
| `Receivables.StatementsJoin` | backend/receivables/selectors.py:357-362 | one period's closing is the next one's opening, and the two statements put together are the statement of the whole period |
| `Receivables.StatementReconciles` | backend/receivables/selectors.py:354-381 | opening plus entries less closing is exactly the entries an inverted period skips, so zero for every other period |
| `Receivables.InvertedPeriodFails` | backend/receivables/selectors.py:369-381 | an inverted period whose figures do not reconcile exists |
| `SyncHandlers.HandlersAreIdempotent` | backend/sync/services.py:128-135 | re-entering a handler whose effect committed returns the same entity and changes nothing |
| `SyncHandlers.VisitsAreInsertedExactlyWhen` | backend/field/services.py:49-113 | a visit is inserted exactly when its key is new and its payload is whole, as the only new row and holding what was sent; a payload short only of its time faults, any other is refused |
| `SyncReceiver.Receiver.ProcessPush` | backend/sync/services.py:33-58 | a batch is served in array order, each operation on its own; one over 200 is refused whole with nothing changed |
| `SyncReceiver.Receiver.ProcessOne` | backend/sync/services.py:61-94 | receipt, then handler, then outcome; an existing row is settled instead |
| `SyncReceiver.Receiver.SettleExisting` | backend/sync/services.py:97-151 | a verdict is answered DUPLICATE and left alone; RECEIVED is finished |
| `SyncReceiver.Receiver.ApplyOne` | backend/sync/services.py:154-202 | an accepted row names its entity, a refused one its code and payload, a fault leaves the row RECEIVED |
| `SyncReceiver.VerdictIsTheHandlers` | backend/sync/services.py:154-202 | an unsettled row takes its handler's verdict: the entity with the effect, the code with the payload, or RECEIVED on a fault; nothing else moves, and an unknown type is refused as unsupported |
| `SyncReceiver.ReplayConverges` | backend/sync/services.py:123-151 | from nothing, the receipt, the receipt and effect, or everything, serving again ends where an uninterrupted attempt does |
| `SyncReceiver.BatchSplits` | backend/sync/services.py:55-58 | a batch is its served prefix followed by the rest, whatever serves it |
| `SyncReceiver.CrashReplayRefinement` | backend/sync/services.py:55-202 | any number of requests cut short, then one served: same visits, deliveries, orders and rows as one uninterrupted request, and the same answers up to DUPLICATE |
| `SyncReceiver.NothingIsLost` | backend/sync/services.py:102-116 | after a completed request every operation is accepted with its effect in place or refused with its payload kept, and whatever is answered ACCEPTED names the visit of its own key, or its own delivery |
| `SyncReceiver.ReplayInAnotherWorld` | backend/sync/services.py:123-151 | interrupted in one world and replayed in another: a lone effect is finished as the uninterrupted attempt would have exactly when its delivery is still in scope, else the row is REJECTED over it |
| `SyncReceiver.BatchInAnotherWorld` | backend/sync/services.py:55-58 | of a batch cut short, only the operation it was cut in and those after it meet the new world |
| `SyncReceiver.ACommittedHandoverCanTurnRejected` | backend/sync/services.py:229-241 | a handover that committed, then REJECTED because the delivery was reassigned before the replay |
| `SyncInterleaving.LookThenWrite` | backend/field/services.py:49-113 | a handler's look and its later write, with nothing between, are the serial handler |
| `SyncInterleaving.FirstAttemptAlone` | backend/sync/services.py:61-94 | an undisturbed first attempt, step by step, commits and answers what the serial receiver does |
| `SyncInterleaving.NextSafe` | backend/sync/services.py:61-188 | every step of every worker, crash and outside change keeps the joint invariant |
| `SyncInterleaving.ExactlyOnce` | backend/sync/services.py:123-151 | under any interleaving: one visit per key, one departure per delivery, accepted rows have their effect, locks protect RECEIVED rows, no verdict for an unfinished row |
| `SyncInterleaving.NothingGoesBack` | backend/sync/services.py:109-116 | over every run receipts, verdicts, visits and departures stay: no record returns to RECEIVED |
| `SyncInterleaving.VerdictChanges` | backend/sync/services.py:181-188 | a recorded verdict changes exactly when a first attempt, overtaken by a recovery, writes its own |
| `SyncInterleaving.SettledForGood` | backend/sync/services.py:137-151 | once no first attempt is in flight a settled row is never written again |
| `SyncInterleaving.AnAcceptedRowCanTurnRejected` | backend/sync/services.py:94-94 | a run after which an accepted, answered row is REJECTED while its visit stands |
| `SyncDispatch.CompletionIsTheServices` | backend/sync/services.py:216-256 | a synced completion accepts, refuses and faults where `complete_delivery` does, on the same rows, and answers with its delivery: the original one on a replay |
| `SyncDispatch.OnlyTheHandlerWrites` | backend/sync/services.py:154-188 | an attempt, interrupted anywhere, writes beside its own row what its handler committed, or nothing |
| `SyncDispatch.BatchIsMirrored` | backend/sync/services.py:55-58 | what a whole served batch does to deliveries and orders is a run of the desk |
| `SyncDispatch.SyncedTablesAreReachable` | backend/sync/services.py:55-202 | from tables some run of the desk reaches, requests cut short anywhere leave tables some run of the desk reaches |
| `SyncDispatch.SyncedDeliveriesAreInStep` | backend/fulfilment/services.py:267-312 | in tables that a run of the desk reaches, and so after serial sync traffic, a delivery is handed over iff its order is DELIVERED, and out iff DISPATCHED or DELIVERED |
| `SyncPull.CollectSplitsDue` | backend/sync/selectors.py:113-137 | a page and what its next position still owes are together exactly what was owed |
| `SyncPull.PagesAreTheTable` | backend/sync/selectors.py:52-75 | following the token terminates and the pages put together are the sorted matching rows of each collection |
| `SyncPull.PullDeliversTheRest` | backend/sync/selectors.py:97-137 | over tables that hold still a pull from the start delivers every row of both collections stamped at or after the since time, once, ordered by stamp and then key |
| `SyncPull.UntouchedRowsArriveOnce` | backend/sync/selectors.py:111-128 | whatever happens to other rows between pages, an untouched row is delivered once if it matches and is behind the final position, else never |
| `SyncPull.ArrivesExactlyWhen` | backend/sync/selectors.py:97-137 | a row version that becomes visible before page k arrives in a finished pull exactly once if it matches and is ahead of where page k starts, else never |
| `SyncPull.ReachedExactlyWhen` | backend/sync/selectors.py:40-47 | over two pulls, whenever in either it becomes visible, a row version arrives exactly when it matches and is ahead of the first cursor, or is stamped at or after the server time and ahead of the second |
| `SyncPull.LostExactlyWhen` | backend/sync/selectors.py:52-75 | a row visible by the second pull is lost exactly when it is stamped before the server time and did not match or appeared behind the cursor |
| `SyncPull.ARowCommittedBehindTheCursorIsLost` | backend/sync/selectors.py:118-137 | a concrete two-page pull that loses a row committed between its pages |
| `SyncPull.TokenCarriesPositions` | backend/sync/selectors.py:140-179 | the positions a page ends at survive encoding and validation |
| `SyncPull.OnlyAbsenceRestarts` | backend/sync/selectors.py:150-212 | a token restarts a collection only by being absent; every malformed one is refused |
| `Money.HalfUpIsNearest` | backend/core/fields.py:32-40 | half-up rounding is the nearest whole number, ties away from zero, and nothing else is |
| `Pricing.AcceptedLinesArePriced` | backend/orders/services.py:411-488 | a line is accepted exactly when its product is sold, one quantity and not both is entered, it is positive, and the discount is allowed on its gross value; it then holds the product, price, rate and discount, the quantity entered (packs times pack size, or base units), and figures that follow from them |
| `Pricing.PricedLinesArePriced` | backend/orders/services.py:442-488 | an accepted order has one priced line for each one entered, in order, with its quantity, product, price, rate and discount |
| `Pricing.OrderPricedExactlyWhen` | backend/orders/services.py:442-488 | the lines of an order are priced exactly when every one of them is acceptable |
| `Pricing.PacksAreTheirUnits` | backend/catalogue/models.py:67-80 | packs, and the base units they hold, are accepted alike and give the same line but for how it was entered |
| `Pricing.TotalsFollowTheLines` | backend/orders/services.py:492-516 | each line adds its own gross value to the nearest paisa, its discount, its tax and its total to the order's |
| `Pricing.ReplaceLines` | backend/orders/services.py:442-489 | the loop prices every line or returns the first refusal, and the totals are the sums of the rounded lines |
| `Pricing.RecalculateTotals` | backend/orders/services.py:492-516 | the four totals accumulate to the sums over the lines |
| `Documents.PrepareInvoice` | backend/billing/services.py:229-279 | the accumulated header and the copied lines are the invoice of the order's own snapshots |
| `Documents.PayableIsNearestRupee` | backend/billing/services.py:163-167 | the payable is a whole rupee, more than -0.50 and at most 0.50 from the raw total |
| `Documents.HalvesReconcile` | backend/billing/services.py:140-160 | the two halves sum to the tax and differ by its odd paisa |
| `Documents.InvoiceReconciles` | backend/billing/services.py:229-257 | subtotal - discount = taxable; taxable + CGST + SGST + IGST + round-off = total; one kind of GST only; total is the order's total plus the round-off |
| `Documents.InvoiceLinesAreTheOrders` | backend/billing/services.py:259-279 | every invoice line shows its order line's product, quantity, price, discount, taxable value, rate and total, and that line's tax in one kind of GST |
| `Documents.HeaderAgainstLines` | backend/billing/services.py:234-266 | header IGST is the line sum; intra-state, line CGST exceeds header CGST by half the odd-tax lines, rounded down, so they agree exactly when at most one line is odd |
| `Documents.TwoOddLinesDisagree` | backend/billing/services.py:234-266 | any two odd-tax lines, intra-state: line CGST comes to a paisa more than the header's |
| `Documents.PrepareCredit` | backend/billing/services.py:411-470 | the loop over requests gives the note's header and lines, or the first line's refusal |
| `Documents.CreditedLinesAreShares` | backend/billing/services.py:411-470 | requests are priced exactly when each is this invoice's and for a positive quantity within its line; every credited figure, tax included, is then the nearest to the line's own times quantity over invoiced quantity, and the line total is taxable plus tax |
| `Documents.CreditedInParts` | backend/billing/services.py:441-449 | notes whose quantities make up a line credit its taxable value and its tax to within half a paisa a note |
| `Documents.CreditNoteReconciles` | backend/billing/services.py:451-470 | a note's header is the sum of its lines with one kind of GST, in whole rupees |
| `Documents.FullCreditReversesTheInvoice` | backend/billing/services.py:441-470 | every line at full quantity reproduces every line and every header figure, though the state is re-judged from IGST being zero |
| `Documents.PartialLineDrift` | backend/billing/services.py:441-449 | a partial line's gross, discount and taxable value disagree by at most two paise |
| `Numbering.AllocationAdvancesOneSeries` | backend/billing/services.py:58-97 | allocation takes current + 1 of its own series and year and leaves every other counter and format alone |
| `Numbering.AllocatesInItsYear` | backend/billing/models.py:23-30 | a number is taken in the one year y for which the day falls from 1 April of y to 31 March of y + 1 |
| `Numbering.YearsTurnInApril` | backend/billing/models.py:23-30 | two days fall in one financial year exactly when no 1 April lies between them |
| `Numbering.FormattedNumbersAreDistinct` | backend/billing/models.py:74-75 | within one prefix and padding a printed number names one value |
| `Numbering.DefaultNumbersAreDistinct` | backend/billing/services.py:72-86 | across years, two default numbers print alike exactly when they share a value and their years are a multiple of a century apart |
| `NumberGuard.NumberGuardNeverFires` | backend/billing/models.py:74-75 | over every run within a hundred financial years the next number of each series is new |
| `NumberGuard.EveryDocumentIsDated` | backend/billing/services.py:58-97 | over every run each invoice and note carries the financial year of its own day and prints its kind, the last two digits of both years and its value in five digits or more |
| `NumberGuard.InvoicesShareASeries` | backend/billing/models.py:23-30 | over every run two invoices are numbered in one series exactly when no 1 April lies between their days |
| `NumberGuard.DocumentsOverRuns` | backend/billing/services.py:198-257 | over a run within a century an invoice is issued exactly for goods out, lines worth half a rupee, a new order and a new key; a note exactly for a reason, requests in order, a standing invoice, a new key and a value within what is left of it |
| `NumberGuard.InvoiceableOverRuns` | backend/billing/services.py:198-257 | over such a run an order not yet invoiced can be, exactly when it is worth half a rupee |
| `NumberGuard.FullCreditOverRuns` | backend/billing/services.py:411-484 | over such a run a full note is issued exactly when nothing was credited before |
| `BillingOffice.Office.Allocate` | backend/billing/services.py:72-97 | bumps the stored counter and returns its number, or refuses an inactive series untouched |
| `BillingOffice.Office.Record` | backend/ledger/services.py:140-193 | appends exactly one row, or nothing when the type is unknown, the amount zero or the sign wrong |
| `BillingOffice.Office.Issue` | backend/billing/services.py:198-291 | replay, one per order, only for goods out; number, rows and ledger entry together or not at all |
| `BillingOffice.Office.Cancel` | backend/billing/services.py:319-344 | refused without a reason or with notes; otherwise one compensating entry and the status, once |
| `BillingOffice.Office.Credit` | backend/billing/services.py:384-527 | replay, cancelled, line checks, cap, number, positive total, entry: in that order, all or nothing |
| `BillingOffice.Office.SumCredited` | backend/billing/services.py:358-361 | the sum over the table is what was credited to that invoice |
| `BillingOffice.Office.Collect` | backend/receivables/services.py:84-140 | replay by key; otherwise one payment and one negative entry |
| `BillingOffice.Office.Reverse` | backend/receivables/services.py:171-200 | one compensating entry and the flag, once |
| `BillingOffice.Office.WriteOff` | backend/receivables/services.py:222-270 | reason and a positive amount, then one negative entry |
| `BillingOffice.Office.LoadOpening` | backend/receivables/services.py:288-345 | one opening per customer, a second one answered with the first |
| `BooksLaws.EveryRunIsSound` | backend/billing/services.py:365-527 | over every run: rows and documents one to one, credits within each invoice's total, none on a cancelled one, one invoice per order, numbers 1 to the counter in issue order |
| `BooksLaws.EveryRunBalances` | backend/ledger/selectors.py:46-54 | a customer's row sum is uncancelled invoices less notes less unreversed payments plus openings and write-offs |
| `BooksLaws.EveryRunBalancesAsEntered` | backend/receivables/services.py:222-345 | the same with the amounts entered: the first opening balance accepted for the customer, less every write-off accepted |
| `BooksLaws.EveryPostingIsOneRow` | backend/ledger/services.py:140-193 | whatever changes the books posts exactly one row for it, of the party, amount, day, order and source document the request names |
| `BooksLaws.MoneyMovesExactlyWhen` | backend/receivables/services.py:84-345 | a cancellation, payment, reversal, write-off or opening changes the books exactly when it is in order and not yet served |
| `BooksLaws.ReplaysChangeNothing` | backend/receivables/services.py:84-87 | a committed request sent again after anything else changes nothing exactly when it identifies itself |
| `BooksLaws.InvoiceableExactlyWhen` | backend/ledger/services.py:118-123 | a dispatched order's invoice commits exactly when the order is worth at least half a rupee |
| `BooksWalk.CustomerLedgerIsTheirs` | backend/receivables/selectors.py:207-211 | the ordered query returns exactly the customer's rows dated by then, none twice |
| `BooksWalk.LiveIsWhatStands` | backend/ledger/walk.py:198-204 | as of any date, what leaves the walk is exactly the withdrawals both of whose halves are in view; over a whole ledger no adjustment is ever read as debt |
| `BooksWalk.NoteResolves` | backend/ledger/walk.py:330-331 | a note resolves exactly when its invoice's row is in view, and then to the debit that invoice posted |
| `BooksWalk.WalkAsOf` | backend/ledger/walk.py:318-340 | as of any date nothing spills, each live invoice enters settlement at total less the notes dated by then, and the unresolved credit is exactly the notes whose invoice is dated later |
| `BooksWalk.WalkNeverSpills` | backend/ledger/walk.py:318-340 | over a customer's whole ledger each live invoice enters settlement at total less credited, nothing spills and the pool is payments and write-offs alone |
| `BooksWalk.FullCreditNote` | backend/billing/services.py:470-526 | a full note passes the cap exactly when nothing was credited before, carries the invoice's figures, and in the walk leaves the invoice's live debit entering settlement at zero with the pool unchanged |
| `BooksWalk.FullyCreditedIsClosed` | backend/billing/services.py:472-484 | after that, and after anything else has happened, no request against the invoice commits anything |
| `Trade.FulfilmentDesk.PlaceOrder` | backend/orders/services.py:60-133 | replay by key; the order row, its lines, totals and credit verdict commit together or the row is gone |
| `Trade.FulfilmentDesk.AssignDelivery` | backend/fulfilment/services.py:48-112 | replay by key and by order; otherwise one delivery, only for a CONFIRMED order |
| `Trade.FulfilmentDesk.AmendOrder` | backend/orders/services.py:140-153 | lines and totals are replaced only while PLACED or CONFIRMED, or nothing changes |
| `Trade.FulfilmentDesk.MoveTo` | backend/orders/services.py:289-313 | a transition outside the map is refused and changes nothing |
| `Trade.FulfilmentDesk.RecordMovements` | backend/fulfilment/services.py:153-161 | one movement per line, in order, appended |
| `Trade.FulfilmentDesk.DispatchDelivery` | backend/fulfilment/services.py:117-165 | once only, from CONFIRMED, credit permitting: movements, flag and status together |
| `Trade.FulfilmentDesk.CompleteDelivery` | backend/fulfilment/services.py:244-311 | replay by outcome key, only after dispatch, once; order follows or all rolls back |
| `Trade.FulfilmentDesk.FailDelivery` | backend/fulfilment/services.py:331-405 | reason, replay, only after dispatch, once; goods come back line by line |
| `Trade.EveryRunIsValid` | backend/fulfilment/services.py:137-169 | over every run: goods out iff order DISPATCHED or DELIVERED, handed over iff DELIVERED, and product by product a delivery's ISSUE movements are minus the ordered quantity once out, its RETURN movements the ordered quantity if it failed, and nothing otherwise |
| `Trade.PacksDispatchAsUnits` | backend/catalogue/models.py:67-80 | an order entered in packs and one entered in the units they hold are dispatched alike and move the same stock |
| `Trade.PlacedExactlyWhen` | backend/orders/services.py:60-133 | an order is placed exactly for a new key, an active customer, acceptable lines, at least one, and credit; it is the last row, PLACED, and holds what was entered |
| `Trade.AmendedExactlyWhen` | backend/orders/services.py:140-153 | lines are replaced exactly while the order stands and its goods have not left, if all are acceptable and credit allows; nothing else of it changes |
| `Trade.AssignedExactlyWhen` | backend/fulfilment/services.py:69-96 | a delivery is assigned exactly for a confirmed order without one, to internal staff, under a new key |
| `Trade.OutcomesExactlyWhen` | backend/fulfilment/services.py:117-405 | over reachable tables goods leave exactly for a confirmed order with lines and credit; a handover or a failure is recorded exactly for goods on their way under a new key, and a handover's order never refuses it |
| `Trade.OneStageOrWithdrawn` | backend/orders/services.py:36-42 | a transition is one stage forward or a withdrawal before the goods leave, and there is no other |
| `Trade.LinesAreFrozenOnceDispatched` | backend/orders/services.py:146-153 | over every run a dispatched order keeps its lines and totals and never goes back |
| `Trade.RetriesChangeNothing` | backend/fulfilment/services.py:137-140 | after any run a repeated dispatch, and a second outcome of either kind, moves nothing |
| `Trade.EveryRunsKeysAreUnique` | backend/orders/services.py:76-82 | over every run a key names at most one order and one assignment |
| `Trade.ResentChangesNothing` | backend/orders/services.py:76-82 | a committed request sent again, whatever happened in between and whatever else it now says, changes nothing and is answered with what it made: a key places one order |
| `Trade.ResentAtOnce` | backend/orders/services.py:76-82 | sent again at once, a committed request changes nothing exactly when it carries its identity or amends an order; an order placed without a key is placed twice |
| `Exposure.EveryRunIsLinked` | backend/billing/services.py:203-257 | over every run each invoice belongs to an order whose goods are out and carries that order's figures |
| `Exposure.OneRowSettles` | backend/ledger/selectors.py:96-104 | an order is in the settled set exactly when it has an invoice, cancelled or not, through one INVOICE row at its total give or take half a rupee |
| `ExposureLaws.EachOrderCountsOnce` | backend/orders/selectors.py:46-98 | a live order weighs its total, give or take half a rupee, exactly when its invoice is absent or uncancelled; otherwise its goods are out and it weighs nothing |
| `ExposureLaws.EveryRunsExposure` | backend/orders/selectors.py:92-98 | over every run a customer's exposure is what its orders weigh, less notes and standing payments, with openings and write-offs |
| `ExposureLaws.EveryRunsExposureAsEntered` | backend/receivables/services.py:222-345 | the same with the amounts entered: the first opening balance accepted, less every write-off accepted |
| `ExposureLaws.CancellingDropsTheOrder` | backend/billing/services.py:334-345 | cancelling takes the invoice's total out of its customer's exposure, though the order is live |
| `ExposureLaws.CancelledIsNeverBilledAgain` | backend/billing/services.py:198-207 | for good: in every later state the order's goods are out, it weighs nothing, and no request to invoice it changes anything |
| `ExposureLaws.ACancelledOrderWeighsNothing` | backend/orders/selectors.py:92-98 | for any whole-rupee order, the run that ends with its goods out and its customer exposed for nothing |
| `ExposureLaws.AFortyPaiseOrderIsNeverInvoiced` | backend/ledger/services.py:118-123 | a run that dispatches an order for 40 paise, which is then refused an invoice |
| `Exposure.InvoicingMovesOnlyTheRoundOff` | backend/orders/selectors.py:92-98 | issuing changes its customer's exposure by the round-off and nobody else's at all |
| `Exposure.FulfilmentKeepsExposure` | backend/orders/selectors.py:26-31 | confirming, assigning, dispatching, delivering, failing and moving stock change nobody's exposure |
| `Exposure.WithdrawingReleasesTheTotal` | backend/orders/services.py:262-286 | withdrawing an order takes exactly its total out: it was never in the ledger |
| `PurchasingDesk.Desk.ReplaceLines` | backend/purchasing/services.py:446-509 | rebuilds every line, each figure rounded on its own, or refuses |
| `PurchasingDesk.Desk.RecalculateTotals` | backend/purchasing/services.py:512-524 | the header is the sum of the rounded lines |
| `PurchasingDesk.Desk.Create` | backend/purchasing/services.py:528-585 | dates, supplier and lines checked; a refusal leaves no draft behind |
| `PurchasingDesk.Desk.Amend` | backend/purchasing/services.py:589-639 | drafts only: date and lines change together or not at all |
| `PurchasingDesk.Desk.MoveTo` | backend/purchasing/services.py:402-443 | a transition outside the map is refused and changes nothing |
| `PurchasingDesk.Desk.LoadOpening` | backend/purchasing/services.py:1060-1147 | one opening per supplier, of either sign; a second one is refused |
| `PurchasingDesk.Desk.PriceLines` | backend/purchasing/services.py:764-861 | the loop and its seen set accept exactly the lines that are this order's, new, positive and under the cumulative ceiling, priced from the order line |
| `PurchasingDesk.Desk.PostLines` | backend/purchasing/services.py:878-904 | one positive movement per line |
| `PurchasingDesk.Desk.ReceiveGoods` | backend/purchasing/services.py:936-1044 | header, lines, movements, payable and status together or not at all; a zero-value receipt raises no payable |
| `PurchasingDesk.Desk.Pay` | backend/purchasing/services.py:1240-1345 | a known form is replayed by comparing every field; a new one adds one payment and one entry |
| `PurchasingDesk.Desk.Reverse` | backend/purchasing/services.py:1348-1414 | one compensating entry and the flag, once |
| `PurchasingLaws.PricedWithinLimit` | backend/purchasing/services.py:749-834 | what an accepted receipt adds to each line, with everything before, is at most ordered plus the tolerance, in hundredths of a percent, to the nearest thousandth |
| `PurchasingLaws.PricedExactlyWhen` | backend/purchasing/services.py:764-861 | submitted lines are accepted exactly when each is this order's, named once, positive, and with everything before within that ceiling |
| `PurchasingLaws.ReceivedExactlyWhen` | backend/purchasing/services.py:936-1033 | a receipt commits exactly when the order is open for receiving, it is dated no earlier than the order, it has lines, and every one fits |
| `PurchasingLaws.DraftedExactlyWhen` | backend/purchasing/services.py:528-585 | an order is drafted exactly when its dates, supplier and lines are in order; it holds them, each figure the nearest to its exact value |
| `PurchasingLaws.AmendedExactlyWhen` | backend/purchasing/services.py:589-639 | a draft is rewritten exactly while it is one and what it would then state is in order; the expected day changes only if asked |
| `PurchasingLaws.OrdersEndExactlyWhen` | backend/purchasing/services.py:351-358 | issued exactly from DRAFT, cancelled exactly before anything came, closed exactly after something did; ended orders receive nothing |
| `PurchasingLaws.HeadersAddUp` | backend/purchasing/services.py:512-524 | order and receipt headers are the sums of their lines' figures |
| `PurchasingLaws.ReceivedMeansEverythingCame` | backend/purchasing/services.py:907-933 | until closed, RECEIVED is exactly every line having reached its ordered quantity |
| `PurchasingLaws.ReceiptsAreBounded` | backend/purchasing/services.py:749-761 | an order's receipts plus the room it has left never exceed the thousandths its lines may ever accept |
| `PurchasingLaws.ReceivingUsesUpRoom` | backend/purchasing/services.py:936-1044 | each receipt uses exactly what it brought, and at least something |
| `PurchasingLaws.ReceivedInFull` | backend/purchasing/services.py:846-875 | an issued order received whole in one receipt is accepted, becomes RECEIVED, and its payable is the order's total to the paisa |
| `PurchasingLaws.SplittingDriftsByHalfPaise` | backend/purchasing/services.py:846-848 | over `k` deliveries a line costs its quantity at the agreed price within k half paise, and once whole is within (k + 1) / 2 paise of what was ordered |
| `SupplierLaws.EveryRunIsAccounted` | backend/purchasing/services.py:936-1033 | over every run at one tolerance: headers are the sums of their lines, ceilings, statuses, stock = received, payables = receipt totals, balance = opening + receipts - standing payments |
| `SupplierLaws.NeverAboveTheTolerance` | backend/purchasing/services.py:749-761 | over every run no line has received more than ordered times (100% + tolerance) to the nearest thousandth, and at zero tolerance no more than was ordered |
| `SupplierLaws.EveryPostingIsOneRow` | backend/purchasing/services.py:1019-1414 | whatever changes the supplier ledger adds one row, of the party, amount, day and document the request names |
| `SupplierLaws.MoneyMovesExactlyWhen` | backend/purchasing/services.py:1060-1414 | a payment, reversal or opening changes the tables exactly when it is whole and not yet served |
| `SupplierLaws.ReplayedForms` | backend/purchasing/services.py:1206-1236 | a form sent again after anything else succeeds exactly when nothing differs, and never changes anything |
| `SupplierLaws.ReversedOnce` | backend/purchasing/services.py:1383-1403 | a reversal sent again after anything else changes nothing |
| `SupplierLaws.ReversalNeedsTheSpelling` | backend/purchasing/registry.py:34-62 | a payment and its reversal leave the walk exactly when the payment is registered as PAYMENT |
| `SupplierLaws.PostedPairsMatch` | backend/purchasing/services.py:1325-1334 | the two rows the services write for a reversed payment are such a pair |
| `SupplierWalk.LiveIsWhatStands` | backend/purchasing/selectors.py:206-218 | as of any date the walk drops exactly the reversed payments both of whose rows are in view; over a whole ledger it keeps receipts, openings and unreversed payments |
| `SupplierWalk.EveryRunsPosition` | backend/purchasing/selectors.py:185-218 | over every run the position the walk shows a supplier is opening plus receipts less standing payments, outstanding or in credit |
| `Words.PrintWords` | backend/billing/templatetags/humanize_money.py:66-76 | the loop over the scales prints crores of any size, lakhs, thousands and the rest, and terminates |
| `Words.WordsRoundTrip` | backend/billing/templatetags/humanize_money.py:66-76 | reading the words recovers every natural number |
| `Words.WordsAreDistinct` | backend/billing/templatetags/humanize_money.py:66-76 | two numbers print alike only when equal |
| `Words.AmountsRoundTrip` | backend/billing/templatetags/humanize_money.py:79-95 | sign, rupees and paise are all recovered from the printed amount |

## Left out

- Views, serializers, routing, templates, PDF, media, SMS, logging, settings, health checks: plumbing.
- Roles, zone scoping, login and one-time passwords: the actor is taken as permitted; what it may see is a parameter.
- Audit rows and free text: no derived figure reads them; of narrations only those the model's rows name are kept.
- Primary-key gaps: a row's key is its position plus one, so keys a rolled-back insert burns do not show.
- Links from a document to its ledger rows (`entry`, `cancelEntry`, `reversalEntry`): kept here as a record of what was posted, not stored by the source.
- Tables are `seq` and `map` fields that the service classes reassign; only the walk's debits are separate mutable objects, as in the source.
- Timestamps, device and audit columns of the sync tables: the model keeps the columns the receiver's guarantees mention.
- Malformed timestamps and non-integer ids inside a push payload: they fault before any handler rule.
- JSON and base64 of the page token: the token is modelled as decoded as far as it will go.
- `deactivated_ids`, device and fleet status: single filters.
- Decimal's 28-digit division in a partial credit share: the share is the exact rational.
- A cumulative credited quantity per invoice line: the code caps quantity per note and money in total, and so does the model.
- Confirming, issuing, cancelling and closing an order as methods of their own: each is one check and `MoveTo`, and a function in the runs.
- The credit policy's verdict: a parameter of placing, amending and dispatching, so every result holds whatever it says.
- `apply_line_discount`: it re-resolves the current price but keeps the line's old unit price, so an order's lines need not be priced afterwards.
- Concurrent goods receipts and a tolerance that changes between receipts: `create_goods_receipt` takes no lock, so receipts are serial, at one tolerance.
- Concurrent billing: the counter row's lock makes issuing serial, and it is modelled as serial.
- Amending a sales order to no lines: the code allows it and so does the model; such an order is never dispatched.
- Editing a number series by hand: runs start with no series, and each is created at its defaults.
- Ageing buckets: a label on an age, and the age is modelled.
- The spelling of each word: the printer is modelled on words as tokens, one per printed word.
- Report arrangement, CSV, phone normalisation, master-data upkeep and performance tooling: they would only add easy members.
