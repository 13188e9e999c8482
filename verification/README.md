# Receivables, unit repair, migrations and offline sync: a verified model

This project models the parts of the SamplePOS system whose correctness spans many steps, and proves what they keep.

* **Receivables** (`Sums`, `Receivables`, `BooksInvariant`, `BooksTransitions`, `FifoAllocation`, `BooksRuns`,
  `BooksLaws`, `PaymentService`, `AgingReport`). Invoices, customer payments with their allocations, customer accounts and the AR
  control balance, changed by three transactions: create an invoice, process a payment (explicit or oldest-first
  allocation), reverse a payment. `Sound` is what every reachable state satisfies with no restriction on amounts or
  requests; `PaymentService.ReceivablesService` is the service as a class, proved against the transitions.
* **Unit-of-measure repair** (`UnitCatalog`, `UnitMerge`, `UnitMergeSteps`, `UnitMergeJob`, `UnitRebuild`,
  `UnitRebaseUpdate`, `UnitRepair`, `UnitRepairValid`, `UnitRepairJob`). Merging duplicate units across fifteen
  foreign-key columns, rebasing products with factors below one, rebuilding the conversion table, all in one transaction
  under the schema's constraints. `UnitMergeJob.MergeJob` and `UnitRepairJob.RepairJob` are the job statement by
  statement; the one statement that can fail half-way, the rebase of a product's unit rows, is written row by row.
* **Migrations** (`Migrations`). The lot write-down migration runner over every history of interrupted runs.
* **Offline sync** (`OfflineSync`, `SyncWorker`). The journal, the network and the server as a transition system with any
  number of overlapping rounds, and the service worker's handler as code whose calls are runs of that system.
* **Arithmetic rules** (`DocumentNumbers`, `CalendarDays`, `GoodsReceiptBill`).

Money is exact and counted in the smallest unit of the decimal columns; factors, prices and bill totals are exact reals.
Row identifiers of invoices and payments are positions. What a query returns in no fixed order is a parameter that is
only required to list every row once, so the results hold for every order. The network's behaviour, the server's
verdicts, the number of open tabs, the order in which an UPDATE visits rows, the columns the database has and the point
at which a migration run is cut short are parameters too. `Basics` holds what several parts share.

## Where the code and its comments differ

* **Explicit allocation.** The comment at Backup/PaymentService.cs:117 says that an allocation never exceeds what the
  payment has available, but line 118 reads an amount that is only updated after the loop. Two requests of 80 against a
  payment of 100 take 160 (`OverdrawnWitness`), and reversing that payment leaves 60 of credit behind
  (`OverdrawnWitnessCredit`). `Covered` says beforehand which payments are affected, for every request list: for each
  invoice the smaller of its balance and its clamped requests, summed, must not exceed the payment. Books that start empty
  tie after a run exactly when every accepted payment was covered (`RunTied`), and what they miss by is exactly the sum
  of the overdrafts (`TiedUnlessOverdrawn`). Requests whose positive amounts fit in the payment are always covered.
* **Duplicate units.** `uoms.name` is unique, and the winner is renamed before the duplicates are deleted. With "Pack"
  listed before "PACK" that rename fails and the whole job is rolled back (`TwoSpellingsBlock`). `Mergeable` is the exact condition
  under which the merge commits; `NamesFreeMeans` says what its naming part means in terms of the query order. A column
  outside the rewrite list, `products.purchase_uom_id`, is emptied for every product that referred to a duplicate
  (`LooseCells`); so are the unit columns of shared/sql/640_store_issue_uom.sql:5 and
  shared/sql/419_sale_line_price_events.sql:22.
* **A missing column.** The rewrite list names a relation `orders` that no schema file creates; the code elsewhere uses
  `pos_orders`. Without any one of the fifteen columns the merge commits exactly if no two units share a canonical name,
  so that there is nothing to merge (`MissingColumn`).
* **Rebasing unit rows.** The UPDATE at SamplePOS.Server/scripts/repair-canonical-uom.ts:189-195 moves the default flag
  row by row under a unique index that is checked at once (shared/sql/010_multi_uom.sql:31-33). It fails exactly if an old
  default other than the new base is visited after the new base, or a new factor needs more than twelve digits
  (`RefusedExactly`, `UpdateUnits`; `VisitDecides` and `FactorTooLarge` are inputs for either). The repair commits exactly
  if the merge does and no product that is to be rebased meets this (`RepairJob.Repair`), which can be told from the
  catalog as it stands (`CommitsAfterMerge`).
* **Rebased prices.** The statements round prices to six places, but the columns they are stored in have two
  (shared/sql/001_initial_schema.sql:92-93, shared/sql/410_product_vertical_partition.sql:47-50). The six-place bound on
  the price of a pack holds for what is computed (`PackPriceKept`); what is stored is within the bound for half a cent
  more per base unit, and equals the computed price exactly if that is a whole number of cents (`RebasedPackPrices`). A
  price vanishes exactly if the computed one is below half a cent (`PriceVanishes`): 1.00 with a least factor of 0.001
  becomes 0.00 (`PriceLost`).
* **Offline sync.** The handler reads a 2xx reply whose body is cut off as plain acceptance
  (samplepos.client/public/sw.js:293-298). An event that the server parked for review without storing it is then marked
  synced though nobody holds it (`ParkedAndLost`). The server also acknowledges some kinds of event with 2xx and does
  nothing (SamplePOS.Server/src/modules/pos/posEventReplayer.ts:392-397). Over every run, what is synced or about to be is
  held at every moment exactly if no reply is misheard in this way (`BackedExactly`); and synced means held in all runs
  exactly if the server stores all it acknowledges, and all it parks unless bodies never get lost (`HeldExactly`). What
  holds with no condition is in `ReachableSafe`.
* **Document numbers.** Number 100001 and every later one repeat 100000, because "99999" sorts above "100000"
  (`NumbersIssued`, `DistinctExactly`).
* **Clamped paper total.** A paper exactly half a cent above the ceiling is let through and then counts as over
  (`ClampedOver`). On whole cents this cannot happen.
* **Migrations.** A run that nothing interrupts completes exactly if the documents table exists or both 611 and 613 are
  still unrecorded (`UninterruptedRun`): with 611 recorded but its table gone, no later run can finish.

## Model

| member | source | states |
|---|---|---|
| BooksTransitions.CreateKeepsSound | Backup/InvoiceService.cs:27-136 | Creating an invoice, on credit or for cash, keeps every derived total explained: invoices by standing allocations, accounts and control balance by invoices and payments |
| BooksTransitions.SettleKeepsSound | Backup/PaymentService.cs:43-80 | Recording a payment with any applicable allocations keeps the same invariant |
| BooksTransitions.ReverseKeepsSound | Backup/PaymentService.cs:248-309 | So does reversing any standing payment |
| BooksInvariant.ApplyAllEffect | Backup/PaymentService.cs:135-138 | A list of allocations acts on each invoice like one allocation of its sum, never takes more than the balance and leaves other customers alone |
| BooksInvariant.PutBackAllEffect | Backup/PaymentService.cs:265-278 | Putting a list of allocations back acts on each invoice like putting back its sum |
| BooksInvariant.PostMoves | Backup/PaymentService.cs:334-378 | An account posting, which opens the account when it is missing, moves that customer's balances by the posted amounts and nobody else's |
| BooksRuns.ExplicitTakes | Backup/PaymentService.cs:98-148 | What explicit requests take from an invoice, for every list with repeats and negative amounts: the smaller of its balance and the sum of its clamped requests, in any order |
| BooksRuns.ExplicitTotal | Backup/PaymentService.cs:100-147 | The total allocated is the demand that can be computed before the call |
| BooksRuns.ModestRequestsTakeLess | Backup/PaymentService.cs:117-119 | The demand never exceeds the sum of the positive request amounts |
| BooksRuns.PayOverdraws | Backup/PaymentService.cs:117-147 | Allocated and unallocated always add up to the amount, and the unallocated amount is negative exactly when the payment was not covered |
| BooksRuns.PayNeverOverpays | Backup/PaymentService.cs:98-193 | No payment drives an invoice below nothing owed, raises a balance or touches another customer's invoice |
| BooksRuns.PayKeepsSound | Backup/PaymentService.cs:27-93 | Processing any payment, covered or not, keeps the invariant |
| BooksRuns.TiedUnlessOverdrawn | Backup/PaymentService.cs:354-374 | The control balance misses outstanding minus credit by exactly all overdrafts, and the books tie if and only if no payment was overdrawn |
| BooksRuns.RunOverdraws | Backup/PaymentService.cs:27-378 | Over a whole run no payment is overdrawn if and only if each accepted payment was covered when it was made |
| BooksRuns.RunTied | Backup/PaymentService.cs:27-378 | From empty books every run ends sound, and ends tied if and only if all its payments were covered |
| BooksRuns.ReversalForgets | Backup/PaymentService.cs:264-278 | After reversing any earlier payment, paid amount, balance and status of every invoice are what the other payments alone determine |
| BooksRuns.PayThenReverse | Backup/PaymentService.cs:27-309 | Processing and at once reversing restores every invoice, the control balance and all receivables; credit grows by exactly the overdraft |
| BooksRuns.PayThenReverseRestores | Backup/PaymentService.cs:354-374 | So all credit balances are restored if and only if the payment was covered |
| BooksRuns.OverdrawnWitness | Backup/PaymentService.cs:117-147 | Two requests of 80 against a payment of 100 are granted 160 |
| BooksRuns.OverdrawnWitnessCredit | Backup/PaymentService.cs:354-374 | That payment ends at -60 unallocated, and reversing it leaves 60 more credit than before |
| BooksRuns.OverdrawnWitnessReached | Backup/InvoiceService.cs:27-136 | The state the witness needs is reached from empty books by two credit sales |
| BooksLaws.ExplicitAccepted | Backup/PaymentService.cs:102-121 | Explicit requests are accepted if and only if each names an existing invoice of the customer; a request on a settled invoice is passed over, not refused |
| BooksLaws.ExplicitRefused | Backup/PaymentService.cs:107-115 | The first unacceptable request decides whether the error is a missing or a foreign invoice |
| BooksLaws.PayAccepted | Backup/PaymentService.cs:66-74 | A payment is accepted if and only if its requests are, and always without requests |
| BooksLaws.PayRefused | Backup/PaymentService.cs:107-115 | and is refused with the error of its first unacceptable request |
| BooksLaws.CreateWrites | Backup/InvoiceService.cs:45-61 | The new invoice has the given customer, total, kind and dates, paid and outstanding add up to the total, and exactly a credit sale moves the control balance and its customer's receivables |
| BooksLaws.PayWrites | Backup/PaymentService.cs:43-77 | The new payment has the given customer and amount and stands; it takes its amount from the control balance, its allocated part from the receivables, and adds what is left to the credit; invoices keep their terms, earlier payments are untouched |
| BooksLaws.ReverseWrites | Backup/PaymentService.cs:264-290 | A reversal cancels that payment alone, keeps all terms and gives the control balance the amount back |
| BooksLaws.ReversePosts | Backup/PaymentService.cs:363-378 | and returns the allocated and the unallocated part on its customer's account alone |
| BooksLaws.InvoiceColumns | Backup/PaymentService.cs:136-138 | In sound books paid and outstanding add up to the total, what is paid is what the standing payments allocated, and the status follows from the two |
| BooksLaws.StepTakes | Backup/PaymentService.cs:27-309 | Each step of a run takes effect if and only if its raw condition on the tables holds |
| FifoAllocation.OpenQueueExact | Backup/PaymentService.cs:155-159 | The query holds exactly the customer's open invoices, each once, by ascending due date and then ascending invoice date |
| FifoAllocation.AutoPayAllocates | Backup/PaymentService.cs:153-193 | Oldest-first allocation uses the smaller of the payment and all that is owed, and leaves money only when nothing is owed |
| FifoAllocation.AutoPayOldestFirst | Backup/PaymentService.cs:155-187 | If an invoice changed, every invoice of the customer with an earlier due date, or the same and an earlier invoice date, is fully paid: paid prefix, at most one partly paid, untouched suffix |
| FifoAllocation.AutoPayOthers | Backup/PaymentService.cs:155-157 | Other customers' invoices are untouched |
| FifoAllocation.AutoPayAdditive | Backup/PaymentService.cs:153-193 | Two successive payments leave every invoice exactly as one payment of their sum |
| PaymentService.ReceivablesService.CreateInvoiceFromSale | Backup/InvoiceService.cs:27-136 | The method makes the create transition |
| PaymentService.ReceivablesService.PostToAccount | Backup/PaymentService.cs:334-378 | The account updates, in place, opening a missing account |
| PaymentService.ReceivablesService.AllocatePaymentToInvoices | Backup/PaymentService.cs:98-148 | The explicit loop succeeds if and only if every request names an existing invoice of the customer; it grants exactly the specified allocations, applies them and reports their sum |
| PaymentService.ReceivablesService.AutoAllocatePayment | Backup/PaymentService.cs:153-193 | The oldest-first loop makes exactly the specified allocations and reports their sum |
| PaymentService.ReceivablesService.ProcessCustomerPayment | Backup/PaymentService.cs:27-93 | The method succeeds if and only if every request names an existing invoice of the customer, and then makes the payment transition; otherwise it rolls back to the old state with the specified error |
| PaymentService.ReceivablesService.ReversePayment | Backup/PaymentService.cs:248-309 | The method succeeds if and only if the payment exists and stands, and then makes the reversal transition; otherwise it changes nothing |
| AgingReport.ReportedRow | Backup/InvoiceService.cs:211-230 | A row's total is its customer's and name's positive balances, each bucket those late by its range of ticks, and the five buckets add up to the total |
| AgingReport.OneRowEach | Backup/InvoiceService.cs:195-213 | There is exactly one row for each customer and name with a positive balance, and no other |
| AgingReport.ReportTotals | Backup/InvoiceService.cs:211-228 | For any selection of customers and names the rows add up to their positive balances, also when one customer has several names |
| AgingReport.ReportOrder | Backup/InvoiceService.cs:228-229 | Rows come out in descending order, equal totals in the order of their groups |
| AgingReport.ReportMatchesAccount | Backup/InvoiceService.cs:191-292 | In every sound state a customer's rows add up to the account's receivables if and only if none of its balances is negative |
| UnitCatalog.CanonTwice | SamplePOS.Server/scripts/repair-canonical-uom.ts:44-77 | A canonical name is its own canonical name: no alias stands for another alias |
| UnitCatalog.KeyCharsExactly | SamplePOS.Server/scripts/repair-canonical-uom.ts:75 | Stripping keeps exactly the letters A to Z and the digits |
| UnitCatalog.NameKeyConcat | SamplePOS.Server/scripts/repair-canonical-uom.ts:75 | The key of a text is the keys of its parts in their order |
| UnitCatalog.NameKeyOfKey | SamplePOS.Server/scripts/repair-canonical-uom.ts:75 | A text of capital letters and digits is its own key |
| UnitCatalog.NameKeyOfChar | SamplePOS.Server/scripts/repair-canonical-uom.ts:75 | Small letters count as capital ones, and no other character below 128 counts |
| UnitCatalog.NameKeyOfSpecial | SamplePOS.Server/scripts/repair-canonical-uom.ts:75 | Which characters from 128 on upper-casing turns into letters, and that no other counts |
| UnitCatalog.CanonExactly | SamplePOS.Server/scripts/repair-canonical-uom.ts:44-77 | The canonical name of each of the nine aliases, and that every other key stands for itself |
| UnitCatalog.OneMoreColumn | SamplePOS.Server/scripts/repair-canonical-uom.ts:122-127 | One more UPDATE of the rewrite list substitutes one more column |
| UnitMerge.TargetMeans | SamplePOS.Server/scripts/repair-canonical-uom.ts:107-119 | Two units end at the same winner if and only if they share a canonical name, and the winner is its own |
| UnitMerge.PlainWinner | SamplePOS.Server/scripts/repair-canonical-uom.ts:116 | A unit whose name is no alias wins if and only if no such unit with its canonical name is listed earlier |
| UnitMerge.WinnerExactly | SamplePOS.Server/scripts/repair-canonical-uom.ts:116 | Which unit of a bucket survives, for every spelling: the first that is no alias, or the first listed when all are aliases; both directions |
| UnitMerge.PlainExactly | SamplePOS.Server/scripts/repair-canonical-uom.ts:116 | A name is no alias if and only if its key is none of the nine |
| UnitMerge.LawfulInNames | shared/sql/515_canonical_item_uom_conversions.sql:13-23 | The merged tables satisfy the unique constraints if and only if the unmerged ones do with names in place of units |
| UnitMerge.MergeKeepsMeaning | SamplePOS.Server/scripts/repair-canonical-uom.ts:115-129 | Every cell of every rewritten column refers to a surviving unit that bears the canonical name of the unit it referred to |
| UnitMerge.MergeKeepsTheRest | SamplePOS.Server/scripts/repair-canonical-uom.ts:122-129 | A merge changes references and unit names only: quantities, factors, defaults, prices, keys and row order stay |
| UnitMerge.OneUnitPerName | SamplePOS.Server/scripts/repair-canonical-uom.ts:102-138 | Exactly one unit remains per canonical name, and it bears that name |
| UnitMerge.LooseCells | shared/sql/501_product_procurement_columns.sql:19 | A cell outside the rewrite list is emptied if and only if its unit is not the preferred spelling of its name in the query order; a cell that is kept keeps its canonical name |
| UnitMerge.MergeKeepsValid | SamplePOS.Server/scripts/repair-canonical-uom.ts:102-138 | A merge that goes through keeps names unique, constraints satisfied and every reference resolved |
| UnitMerge.CanonicalMergesToItself | SamplePOS.Server/scripts/repair-canonical-uom.ts:102-138 | A catalog whose units are already canonical merges without a change |
| UnitMerge.MergeTwice | SamplePOS.Server/scripts/repair-canonical-uom.ts:102-138 | A second merge goes through and changes nothing |
| UnitMerge.NamesFreeMeans | shared/sql/010_multi_uom.sql:8 | Renaming winners meets no name clash if and only if no unit that already bears its canonical name is listed after another spelling of it |
| UnitMerge.TwoSpellingsBlock | SamplePOS.Server/scripts/repair-canonical-uom.ts:116-117 | "Pack" listed before "PACK" cannot be merged |
| UnitMerge.MissingColumn | SamplePOS.Server/scripts/repair-canonical-uom.ts:56-72 | Without one of the listed columns the merge goes through if and only if the names fit and no two units share a canonical name |
| UnitMergeSteps.Finish | SamplePOS.Server/scripts/repair-canonical-uom.ts:119-127 | However much of a substitution has been made, in however many columns, completing it gives the whole |
| UnitMergeJob.GroupByName | SamplePOS.Server/scripts/repair-canonical-uom.ts:107-113 | The map holds the buckets in query order, and its keys each canonical name once |
| UnitMergeJob.MergeJob.RewriteReferences | SamplePOS.Server/scripts/repair-canonical-uom.ts:122-127 | The fifteen updates replace a duplicate everywhere, or stop where a column is missing or a constraint is violated |
| UnitMergeJob.MergeJob.RemoveDuplicate | SamplePOS.Server/scripts/repair-canonical-uom.ts:119-129 | Moving references and deleting a duplicate is one step towards the merged catalog; it fails only for a missing column, a restricted reference or a constraint the merged tables break |
| UnitMergeJob.MergeJob.RenameWinner | SamplePOS.Server/scripts/repair-canonical-uom.ts:117 | The rename fails only if the name is too long or another unit bears it |
| UnitMergeJob.MergeJob.MergeDuplicateUoms | SamplePOS.Server/scripts/repair-canonical-uom.ts:102-138 | The loops commit if and only if the catalog is mergeable (names fit and are free, columns exist where they are needed, no restricted reference, constraints lawful by name), with the merged catalog as result; otherwise nothing changes |
| UnitRebuild.RebasedFactors | SamplePOS.Server/scripts/repair-canonical-uom.ts:181-195 | For a product without history and stock and with a factor below 1: every factor becomes at least 1, the least exactly 1, and the default is the new base alone |
| UnitRebuild.RebasedBase | SamplePOS.Server/scripts/repair-canonical-uom.ts:181-188 | Under the same conditions the new base is a unit of the product with the least factor, and its new factor is exactly 1 |
| UnitRebuild.RebaseGuard | SamplePOS.Server/scripts/repair-canonical-uom.ts:166-179 | A product is rebased if and only if it has no history, no stock and a unit with a factor below 1 |
| UnitRebuild.RebasedByLeast | SamplePOS.Server/scripts/repair-canonical-uom.ts:181-195 | Every new factor is the old one over the least factor of the product, rounded to six places |
| UnitRebuild.DefaultPreferred | SamplePOS.Server/scripts/repair-canonical-uom.ts:183 | A default unit with the least factor remains the base |
| UnitRebuild.RebaseTouches | SamplePOS.Server/scripts/repair-canonical-uom.ts:188-210 | A rebase touches the product's own unit rows, base and prices, and nothing else |
| UnitRebuild.Round6Exactly | SamplePOS.Server/scripts/repair-canonical-uom.ts:192 | Rounding to six places takes the nearest step, halves away from zero, on both sides of zero |
| UnitRebuild.Round2Exactly | shared/sql/410_product_vertical_partition.sql:47-50 | So does storing with two places |
| UnitRebuild.BaseExactly | SamplePOS.Server/scripts/repair-canonical-uom.ts:254 | The base is the product's own, and only where it has none the unit of its default row |
| UnitRebuild.PackPriceKept | SamplePOS.Server/scripts/repair-canonical-uom.ts:186-210 | The price of a pack, as computed, moves by at most what six-place rounding of price and factor accounts for, and not at all without it |
| UnitRebuild.StoredPackPriceKept | shared/sql/410_product_vertical_partition.sql:47-50 | As stored with two places, it moves by at most what half a cent more per base unit accounts for |
| UnitRebuild.RebasedPackPrices | SamplePOS.Server/scripts/repair-canonical-uom.ts:181-210 | For every price cell and every unit of a rebased product: the bound for stored prices, when a stored price is the computed one (if and only if that is whole cents), and the six-place bound in that case |
| UnitRebuild.PriceVanishes | SamplePOS.Server/scripts/repair-canonical-uom.ts:196-210 | A stored price is zero if and only if the computed one is below half a cent |
| UnitRebuild.PriceLost | shared/sql/001_initial_schema.sql:92-93 | A price of 1.00 with a least factor of 0.001 is stored as zero, outside the six-place bound |
| UnitRebuild.RebasedRatios | SamplePOS.Server/scripts/repair-canonical-uom.ts:189-195 | Between any two units of a rebased product the proportion is off by at most what rounding both factors accounts for, and kept exactly where both quotients have six places |
| UnitRebaseUpdate.RefusedExactly | SamplePOS.Server/scripts/repair-canonical-uom.ts:189-195 | At a row the statement is refused if and only if the new factor is out of range, or the row is the new base and an old default is still to be visited |
| UnitRebaseUpdate.UpdateUnits | shared/sql/010_multi_uom.sql:20-33 | The statement row by row succeeds if and only if all new factors fit and no default is visited after the new base, and then has rebased every row of the product |
| UnitRebaseUpdate.CommitsElsewhere | SamplePOS.Server/scripts/repair-canonical-uom.ts:231-304 | Whether a product can be rebased depends on its own rows only |
| UnitRebaseUpdate.CommitsAfterMerge | SamplePOS.Server/scripts/repair-canonical-uom.ts:311-315 | and is the same before and after the merge |
| UnitRebaseUpdate.VisitDecides | shared/sql/010_multi_uom.sql:30-33 | The same two rows can be rebased or not, depending on which is visited first |
| UnitRebaseUpdate.FactorTooLarge | shared/sql/010_multi_uom.sql:20 | Ten million rebased to a millionth is out of range |
| UnitRepair.RebasedOnce | SamplePOS.Server/scripts/repair-canonical-uom.ts:241-244 | A rebased product needs no rebase |
| UnitRepair.ConversionsExact | SamplePOS.Server/scripts/repair-canonical-uom.ts:268-295 | The rows inserted for a product are exactly its units that are neither base nor default and have a factor of at least 1 |
| UnitRepair.TableAgrees | SamplePOS.Server/scripts/repair-canonical-uom.ts:226-305 | After the whole rebuild, for a product with base u, a row is in the table if and only if a final unit other than u, not the default and with factor at least 1 calls for it, one hop from u with the unit's factor |
| UnitRepair.BaselessKept | SamplePOS.Server/scripts/repair-canonical-uom.ts:254-264 | A product without a base keeps its conversions as they were |
| UnitRepair.OthersKept | SamplePOS.Server/scripts/repair-canonical-uom.ts:266 | The rebuild leaves units, product and conversions of a product it does not visit as they were |
| UnitRepair.RebuildTwice | SamplePOS.Server/scripts/repair-canonical-uom.ts:226-305 | A second rebuild, in any product order, leaves units, products and conversions as they are |
| UnitRepairValid.RebaseKeepsValid | shared/sql/010_multi_uom.sql:16-33 | A rebase keeps every constraint, one default per product included, if and only if its factors fit |
| UnitRepairValid.AllCommitNext | SamplePOS.Server/scripts/repair-canonical-uom.ts:231-304 | Going through the products one by one meets the same conditions as all of them at the start |
| UnitRepairValid.RebuildAllKeepsValid | shared/sql/515_canonical_item_uom_conversions.sql:13-23 | A rebuild that goes through breaks no schema constraint and no reference |
| UnitRepairValid.RepairTwice | SamplePOS.Server/scripts/repair-canonical-uom.ts:307-325 | If a repair goes through, the next one does too, in whatever order rows are visited, and changes nothing |
| UnitRepairJob.RepairJob.InsertConversions | SamplePOS.Server/scripts/repair-canonical-uom.ts:268-295 | With one row a unit, the upserts append exactly the product's conversions |
| UnitRepairJob.RepairJob.RebaseProduct | SamplePOS.Server/scripts/repair-canonical-uom.ts:160-210 | The statements for base, unit rows and prices rebase the product if and only if the rebase can commit; with history or stock the call succeeds and changes nothing |
| UnitRepairJob.RepairJob.RebuildProduct | SamplePOS.Server/scripts/repair-canonical-uom.ts:231-304 | One turn of the loop rebases and rebuilds one product, or fails exactly where its rebase does; with history or stock it succeeds and leaves units and products alone |
| UnitRepairJob.RepairJob.RebuildCanonicalConversions | SamplePOS.Server/scripts/repair-canonical-uom.ts:226-305 | The loop over products is the rebuild, and goes through if and only if every product's rebase can commit on the catalog it starts from |
| UnitRepairJob.RepairJob.Repair | SamplePOS.Server/scripts/repair-canonical-uom.ts:307-325 | The job commits if and only if the catalog is mergeable and every rebase can commit, both told from the catalog before; otherwise nothing changes |
| Migrations.CompletedRun | SamplePOS.Server/scripts/ensureLotWriteDownMigrations.ts:64-124 | From any ledger and any live guard, a run that completes leaves 611, 612 and 613 recorded and all four facts of the 613 guard in force |
| Migrations.RunAfterCompleted | SamplePOS.Server/scripts/ensureLotWriteDownMigrations.ts:64-124 | The run after that executes two live checks, changes nothing and does not re-apply 613 |
| Migrations.NothingLeftToReport | SamplePOS.Server/scripts/ensureLotWriteDownMigrations.ts:81-123 | and reports no file |
| Migrations.CompletedStatements | SamplePOS.Server/scripts/ensureLotWriteDownMigrations.ts:92-123 | Exactly which statements a completed run executes: each missing file once, or records only when 613 is on record, and 613 once more if and only if it was on record without being live |
| Migrations.ReappliesExactly | SamplePOS.Server/scripts/ensureLotWriteDownMigrations.ts:111-118 | An uninterrupted run on a recoverable database re-applies 613 if and only if it was on record without being live |
| Migrations.CompletedReport | SamplePOS.Server/scripts/ensureLotWriteDownMigrations.ts:92-123 | Exactly what a completed run reports, including which files were recorded without a rerun |
| Migrations.HoleOpens | shared/sql/612_lot_write_down_immutability.sql:27-41 | A run cut short right after 612 leaves the guard open, with 612 off the record |
| Migrations.HistoryNever612After613 | SamplePOS.Server/scripts/ensureLotWriteDownMigrations.ts:92-109 | Over every history of interrupted runs, 612 is never executed with 613 on record |
| Migrations.HistoryKeepsClosed | SamplePOS.Server/scripts/ensureLotWriteDownMigrations.ts:92-118 | If 613 on record implies its guard is live at the start, it does before every statement of the history |
| Migrations.HistoryKeepsLive | SamplePOS.Server/scripts/ensureLotWriteDownMigrations.ts:92-118 | If 613 is recorded and live at the start, the guard is live before every statement |
| Migrations.UninterruptedRun | SamplePOS.Server/scripts/ensureLotWriteDownMigrations.ts:64-124 | After any history an uninterrupted run completes if and only if the first database was recoverable |
| Migrations.Pool.RunAndRecord | SamplePOS.Server/scripts/ensureLotWriteDownMigrations.ts:105-106 | Execution and record are two statements with a possible interruption between them |
| Migrations.RecordOlder | SamplePOS.Server/scripts/ensureLotWriteDownMigrations.ts:92-101 | With 613 on record the missing older files are recorded and not executed, and reported so |
| Migrations.ApplyPending | SamplePOS.Server/scripts/ensureLotWriteDownMigrations.ts:103-109 | The loop applies exactly the missing files in order and reports them |
| Migrations.EnsureLotWriteDownMigrations | SamplePOS.Server/scripts/ensureLotWriteDownMigrations.ts:64-124 | The runner performs exactly the specified statements, reports exactly what they did, returns the re-apply flag if and only if 613 was on record without being live, and its last check cannot fail |
| OfflineSync.UnsyncedKeysExact | samplepos.client/public/sw.js:270-275 | The filter keeps exactly the events whose status is pending or failed, each once |
| OfflineSync.UnsyncedKeysConcat | samplepos.client/public/sw.js:270-275 | The filter keeps the journal's order |
| OfflineSync.NextKeepsSafe | samplepos.client/public/sw.js:281-318 | Every event of the world keeps the safety invariant |
| OfflineSync.ReachableSafe | samplepos.client/public/sw.js:256-319 | In every interleaving an event takes effect at most once, and a key is marked synced only if the server answered it with 2xx or 409 |
| OfflineSync.BackedExactly | samplepos.client/public/sw.js:292-301 | In every run, every key that is synced or about to be is held by the server at every moment if and only if no reply is heard as acceptance of an event the server does not hold |
| OfflineSync.HeldExactly | samplepos.client/public/sw.js:292-298 | Synced means held in all runs if and only if the server stores all it acknowledges, and all it parks unless no reply ever loses its body |
| OfflineSync.ParkedAndLost | samplepos.client/public/sw.js:293-298 | A run from nothing that marks a parked and unstored event synced, because its reply lost its body |
| OfflineSync.NothingLost | samplepos.client/public/sw.js:305-308 | No event leaves the journal and no effect is undone, whatever is lost or aborted |
| OfflineSync.AppliedExactly | samplepos.client/public/sw.js:299-301 | An event has taken effect after a run if and only if it had before or a request for it was stored in the course of the run |
| OfflineSync.FinishedRound | samplepos.client/src/main.tsx:157-166 | With anything at all in between, a finished round whose message arrives leaves every event it started with synced or in review, except exactly those answered with another status |
| OfflineSync.DeliveredRound | samplepos.client/src/main.tsx:162-163 | Delivering a finished round's message settles every event that was not refused, and leaves the refused ones alone |
| OfflineSync.AnsweredStatus | samplepos.client/public/sw.js:292-304 | Whatever happens between a reply and the delivery of its round: 2xx and 409 end as synced, 422 and a readable request for review as review, and any other status changes nothing |
| OfflineSync.OthersKeepStatus | samplepos.client/src/main.tsx:157-166 | Delivery of a round changes no event that was not in it |
| OfflineSync.AbortedRoundMarksNothing | samplepos.client/public/sw.js:305-308 | Whatever happens after a round is aborted, the state is the same with or without any delivery of its completion |
| OfflineSync.AbortedRoundMadeGood | samplepos.client/public/sw.js:305-308 | A key whose answer an aborted round threw away is taken up by the next round, and settled when that one gets it answered and its message arrives |
| OfflineSync.AppendKeeps | samplepos.client/src/lib/offlineEventJournal.ts:416-427 | Appending records an event once, as pending unless something is noted about it, and changes no status |
| SyncWorker.Station.AppendEvent | samplepos.client/src/lib/offlineEventJournal.ts:416-427 | Appending is idempotent by key |
| SyncWorker.Station.OnBackgroundSyncComplete | samplepos.client/src/main.tsx:157-166 | The handler's two loops mark the synced keys and then the review keys, which win |
| SyncWorker.Station.Exchange | samplepos.client/public/sw.js:282-308 | One request and its reply, with or without its body, or a network error that gives the round up; what is synced stays held if the event is stored or the body arrives |
| SyncWorker.Station.PostAll | samplepos.client/public/sw.js:278-309 | The loop is a run of the transition system, throws if and only if a reply failed to come back, and otherwise sorts every key into one list |
| SyncWorker.Station.SyncPendingOfflineSales | samplepos.client/public/sw.js:256-319 | One call keeps safety and the journal; with no lost or odd reply every unsynced event ends synced or newly in review; with a network error no status changes; and what is synced stays held if every event heard as accepted is stored |
| DocumentNumbers.ParsePadded | Backup/PaymentService.cs:324-331 | Formatting then parsing is the identity |
| DocumentNumbers.SameWidthOrder | Backup/PaymentService.cs:316-319 | Digit strings of equal width are ordered as their values |
| DocumentNumbers.StringLessExactly | Backup/PaymentService.cs:318 | The first difference decides, and a proper prefix comes first |
| DocumentNumbers.FreshAmongFiveDigits | Backup/PaymentService.cs:311-332 | While all numbers have five digits, in whatever order they were issued, the next one is new and greater than all |
| DocumentNumbers.NextAfterGreatest | Backup/PaymentService.cs:321-329 | Whatever was issued: one more than the greatest, wrapping around in 32 bits, or 1 again when the greatest is no 32-bit number |
| DocumentNumbers.SixDigitsSortLow | Backup/PaymentService.cs:318 | 100000 sorts below 99999 |
| DocumentNumbers.NumbersIssued | Backup/InvoiceService.cs:234-255 | The k-th number issued is k up to 100000, and 100000 for every later one |
| DocumentNumbers.DistinctExactly | Backup/InvoiceService.cs:234-255 | The first n numbers are all different if and only if n is at most 100000 |
| DocumentNumbers.NumberSeries.Generate | Backup/PaymentService.cs:311-332 | Generating a number is one step of that sequence |
| CalendarDays.NextDayNumber | shared/authorization/agedSaleReturnPolicy.ts:31-32 | The next Gregorian day has the next day number |
| CalendarDays.SameNumberSameDate | shared/authorization/agedSaleReturnPolicy.ts:31-32 | A day number determines its date |
| CalendarDays.DaysBetweenCountsSteps | shared/authorization/agedSaleReturnPolicy.ts:26-34 | The millisecond difference is n if and only if n next-day steps lead from one date to the other |
| CalendarDays.DaysBetweenAdds | shared/authorization/agedSaleReturnPolicy.ts:26-34 | Differences are additive and antisymmetric |
| CalendarDays.ParseText | shared/authorization/agedSaleReturnPolicy.ts:27-30 | A date written as YYYY-MM-DD is read back whatever follows it |
| CalendarDays.AgedFrom | shared/authorization/agedSaleReturnPolicy.ts:16-65 | An admin is needed exactly from the day after the limit day, and the return is allowed exactly before that or to an admin or super admin in any case of letters |
| CalendarDays.AgedStaysAged | shared/authorization/agedSaleReturnPolicy.ts:48-65 | Once a sale needs an admin it does on every later date |
| GoodsReceiptBill.DirectionComparesCents | shared/domain/grnBillPromptSsot.ts:196-252 | For every tolerance below a cent, over, match and under are the comparison of rounded cents, and the variance is their exact difference |
| GoodsReceiptBill.CentsBetween | shared/domain/grnBillPromptSsot.ts:35-39 | Amounts round to the nearest cent, halves upwards |
| GoodsReceiptBill.ClampDirection | shared/domain/grnBillPromptSsot.ts:93-106 | The clamp turns over into a match, or into an empty field when the receipt is worth nothing, except at half a cent above; nothing else changes |
| GoodsReceiptBill.ClampWrites | shared/domain/grnBillPromptSsot.ts:93-106 | The clamp writes the rounded receipt over anything more than half a cent above it, and changes nothing else |
| GoodsReceiptBill.ClampedOver | shared/domain/grnBillPromptSsot.ts:93-106 | A clamped paper is over if and only if it stood exactly half a cent above a ceiling that is not negative |
| GoodsReceiptBill.WholeCentsNeverOver | shared/domain/grnBillPromptSsot.ts:93-106 | On whole cents a clamped paper is never over |
| GoodsReceiptBill.ClampTwice | shared/domain/grnBillPromptSsot.ts:93-106 | Clamping twice is clamping once |
| GoodsReceiptBill.LogRounds | shared/domain/grnBillPromptSsot.ts:127-129 | The logarithm of every positive ratio rounds to some integer |
| GoodsReceiptBill.LogRoundsOnce | shared/domain/grnBillPromptSsot.ts:127-129 | and to only one |
| GoodsReceiptBill.DigitShiftExactly | shared/domain/grnBillPromptSsot.ts:118-133 | The logarithm test flags exactly the papers within two per cent of ten times or one tenth of the receipt, in whole cents |
| GoodsReceiptBill.RoundingSuggestedExactly | shared/domain/grnBillPromptSsot.ts:108-181 | Rounding is suggested exactly for papers one to a hundred cents below the receipt |
| GoodsReceiptBill.RoundingAllowedExactly | shared/domain/grnBillPromptSsot.ts:108-111 | Differences of one to a hundred cents, and no others, may be called rounding |
| GoodsReceiptBill.ShiftOrRounding | shared/domain/grnBillPromptSsot.ts:108-133 | From 1.12 on no paper is both flagged as a digit shift and within the rounding band |
| GoodsReceiptBill.BothBelow | shared/domain/grnBillPromptSsot.ts:108-133 | 0.11 against 1.11 is both, so the bound is tight |

## Left out

* Invoice line items and the COGS posting, payment terms and due dates, timestamps and notes: plain data or one-line sums.
* The ledger posting service: only its effect on the AR control balance is kept, after the comments at
  Backup/PaymentService.cs:59 and Backup/InvoiceService.cs:96 and 102.
* Database, Entity Framework, HTTP and browser plumbing; each transaction is one atomic step, and concurrent edits inside
  one are not modelled.
* The order the database gives invoices with equal due and invoice dates: creation order is used.
* Floating point: factors, prices, bill totals and the logarithm are exact. The database's own intermediate digits in a
  numeric division are not modelled, only the final six-place rounding.
- UnitRepair.RebuildTwice: compares the conversion table as a collection of rows; row identifiers, timestamps and row order are not kept. The repair log is not modelled, and it and the valuation table are taken to exist.
- UnitRebuild.RebasedFactors: units with the same least factor are taken default first and then in table order, where the query leaves the rest of that order open.
- UnitRebuild.RebasedPackPrices: takes empty price cells as zero from the start, as the statement does; the valuation row, if there is one, is part of the price list.
- UnitRepairJob.RepairJob.InsertConversions: a unit occurs once per product by the schema, so the overwrite on conflict is written out but proved not to happen.
- OfflineSync.ReachableSafe: takes from the server that it answers 409 for an event it holds and does not apply it again; the event store behind the endpoint is not part of this model.
- SyncWorker.Station.SyncPendingOfflineSales: a tab that does not answer in time is not told apart from no open tab; both end the call without a request.
- OfflineSync.AbortedRoundMadeGood: does not say that a review survives an aborted round; a later 409 marks the key as synced.
- OfflineSync.HeldExactly: speaks of events marked by the background handler; what the foreground's own sync marks as synced is not part of this model.
- OfflineSync.NothingLost: the journal's compaction and storage quota are not part of this model.
- Migrations.EnsureLotWriteDownMigrations: the missing-file error and the checksum column are not modelled; each SQL file takes effect as a whole, and of the guard only the facts the live check looks for are kept.
- DocumentNumbers.NumberSeries.Generate: one series stands for one prefix; signs and spaces that number parsing accepts do not occur in formatted numbers and are not modelled.
- CalendarDays.ParseText: texts that are no dates, which the source lets through as not aged, are not followed further.
- CalendarDays.NextDayNumber: years below 100 are excluded, because Date.UTC moves them to the twentieth century.
* Statements of account, listings, the GR full-reverse planning, labels and copy, and the scripts that exercise services
  whose source is not part of this model.
