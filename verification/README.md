# Sync, lifecycle and analytics proofs

Dafny models of the stateful parts of the back office and its dashboard, with proofs about every run of them.

* **Resumable Bling sync** (`Products`, `Convergence`, `Checkpoint`, `Locks`, `OrderLines`, `OrderItems`, `OrderSync`,
  `Requests`, `Invariants`, `Protocol`, `Browser`, and in `Reports` and `OrderOutcomes` what each batch stores and
  reports, said of the replies alone). Products and order items are synced by chains of HTTP requests from
  any number of browsers. `Protocol` is the state machine over clock, Redis key, advisory guard, committed database and
  one local transaction per request, `/sync-all` included; page failures, item failures, exceptions, rollbacks, lease
  expiry and takeover are parameters of its actions. `Requests` has the same requests as methods on live objects.
  `Browser` runs the two client loops against that service; `Completion` shows that runs of `Protocol` do complete.
* **Where the sync's hypotheses bite** (`Retries`, `Deadlock`, `Contention`, `LineReplay`, `ForeignCursor`): the exact
  conditions, for all tables, catalogues and payloads, under which retries complete, agree with a clean pass, replay,
  and settle every order.
* **Insight lifecycle** (`Insights`, `InsightHistory`): records by key and an append-only timeline, and the replay that
  reproduces the records.
* **Cross-tab sales cache** (`SalesCache`), **token refresh** (`Tokens`, following sections 5.1 and 6 of RFC 6749) and
  **API client** (`ApiClient`).
* **Arithmetic kernels** (`Abc`, `Margins`), over exact reals.

Loops and objects of the source are methods and classes here, each proved equal to a specification function; the laws
are then proved about those functions. Fields named `log`, `attempts`, `started`, `posts`, `skipped`, `born` or
`applied` are bookkeeping that no modelled code reads. Whatever comes from outside (clock, network answers, random ids,
what another session sees) is a parameter.

Reading order: `Products`, `Convergence`, `Checkpoint`, `Requests`, `Invariants`, `Protocol`, `Browser`; then `Retries`,
`Deadlock`, `Contention`, `ForeignCursor`; the rest stand alone. Check the project with `dafny verify dfyconfig.toml`.

Findings about the code, each with a lemma:

* The Redis lock is released before the session commits, so it does not exclude; the advisory guard does
  (`LockIsNotEnough`, `OneClaimAtATime`).
* The update path of the product upsert does not look the SKU up. Products whose SKUs moved among them upstream can stop
  the sync for good, and exactly when is `CompletesIff`; two traded SKUs always do (`SwappedSkusNeverComplete`).
* Two items of one page that share a SKU make the table depend on which of them failed first, unless an earlier page
  carries that SKU; across pages a repeated SKU is harmless (`EveryRunMatchesIff`).
* An order-items takeover that posts a cursor of its own before any batch was clean leaves behind the orders at or
  before that cursor that are unsettled then; the operation completes without them, unless another writer gives them
  items (`ForeignCursorSkipsOrders`, `ItemRunsSettleOrders`). A takeover can also stop the browser's loop (`StallsIff`,
  `TakeoverStalls`).
* A payload that repeats a SKU may set another total when applied again; `ReplayIff` says which payloads do.
* `ttl_takeovers` also counts a new operation after a finished, expired one (`FinishedOperationCountsAsTakeover`).
* Two invalidations in one millisecond share a revision (`SameMillisecondServesStale`; the exact condition is
  `ServedIffEchoes`).
* Giveaways with a known cost can take the average margin below every margin shown; how much they may cost is
  `AverageReachesIff`.
* An order without an id is filed under the external id "None" (`MissingIdsShareOneOrder`).

## Model

| member | source | states |
|---|---|---|
| `Products.Session.UpsertProduct` | backend/modules/integration/sync_service.py:1047-1094 | one item in its savepoint leaves the live tables and the outcome that the upsert specification gives: rows stay under their own id, and a skipped or raising item undoes even the category it touched |
| `Convergence.UpsertOutcomes` | backend/modules/integration/sync_service.py:1047-1109 | for every complete item: skipped exactly when the id is new and another row has its SKU; raising exactly when the id is known and another row has its SKU, or the price would be negative; otherwise stored under its id with the stated SKU, name, price, cost, stock and situation, description and EAN where stated, and the category it names completely, else "uncategorized", whose name is stored too; no other row or category moves, and a skipped or raising item moves none; SKUs stay unique |
| `Products.SyncPage` | backend/modules/integration/sync_service.py:273-302 | the item loop of one page equals the fold of the upsert over its items |
| `Products.SyncProductsBatch` | backend/modules/integration/sync_service.py:250-340 | rejects exactly the out-of-range bounds and then changes nothing; otherwise the loop with its early exits leaves what the step function, run for all pages, leaves, and reports it |
| `Products.RunStaysHaltedOrDone` | backend/modules/integration/sync_service.py:265-320 | a batch that has stopped stays as it is, however many turns were allowed |
| `Products.ItemsBalanced` | backend/modules/integration/sync_service.py:273-302 | each item of a page is counted exactly once, as processed, skipped or failed, processed splits into created and updated, and skip reasons sum to skipped |
| `Products.PageCounts` | backend/modules/integration/sync_service.py:273-302 | processed, created, updated, skipped, failed and each skip reason are the numbers of the page's items with that very outcome |
| `Products.IncompleteReason` | backend/modules/integration/sync_service.py:1047-1056 | an incomplete item is skipped, for the first missing of id, SKU and name, and stores nothing |
| `Products.PagesLaw` | backend/modules/integration/sync_service.py:265-326 | after any number of turns: page = start + pages done; the batch stopped early exactly when something failed; a natural end means no failure and at least one page |
| `Products.BatchConservation` | backend/modules/integration/sync_service.py:259-340 | processed + skipped + failed = fetched, plus one exactly when a page fetch raised; created + updated = processed; skip reasons sum to skipped; next_page = start_page + pages_processed whenever there is more; any failure leaves more to do |
| `Convergence.UpsertKeepsProgress` | backend/modules/integration/sync_service.py:1047-1094 | applying any catalogue item, in any order and any number of times, only moves rows from untouched to final; unless it raised, its own row is final |
| `Convergence.ItemsKeepProgress` | backend/modules/integration/sync_service.py:273-302 | a page whose items did not all succeed keeps every earlier page final; one that did makes its own items final too |
| `Convergence.BatchKeepsProgress` | backend/modules/integration/sync_service.py:250-340 | whatever fails, every page before the page a batch reports as next is final in the table |
| `Convergence.PassProgress` | backend/modules/integration/sync_service.py:250-340 | the reference, one clean pass over the first k pages, makes exactly those pages final |
| `Convergence.FinalTableIsUnique` | backend/modules/integration/sync_service.py:1047-1094 | any two tables in which all pages are final are the same table |
| `Convergence.FinishedMeansPassed` | backend/modules/integration/sync_service.py:250-340 | once every page up to a short one is final, the table is the clean pass's table |
| `Convergence.CalmItemsDoNotFail` | backend/modules/integration/sync_service.py:273-302 | with nothing going wrong outside and no negative price, no item of the catalogue fails, on a partly synced table as on an empty one |
| `Retries.UpsertEffect` | backend/modules/integration/sync_service.py:1047-1094 | for any table that satisfies its constraints and any catalogue with distinct ids: a fault-free complete item is stored exactly when no other row has its SKU, raises exactly when one has and the id is known, and what it stores is its final row |
| `Retries.PageStaysMixed` | backend/modules/integration/sync_service.py:273-302 | whatever fails, every row stays the one at the start or its item's final one, SKUs stay unique, and what is final stays final |
| `Retries.FailureIffRaise` | backend/modules/integration/sync_service.py:273-302 | a page counts a failure exactly when one of its items raises, whatever the tally was before |
| `Retries.AttemptLaw` | backend/modules/integration/sync_service.py:265-320 | one attempt of a page: unfetchable, nothing changes; with a raising item, the stored rows stay and so does the page; otherwise the page is passed, and a short one ends the sync |
| `Retries.BatchIsAttempts` | backend/modules/integration/sync_service.py:250-340 | a batch of any size is a sequence of such attempts, so what holds of all sequences holds of all batches |
| `Deadlock.NeverPasses` | backend/modules/integration/sync_service.py:1058-1094 | if rows hold each other's SKUs (each item that would update one wants the SKU of another), no sequence of attempts in any weather gets past the page of such an item |
| `Deadlock.OutsideHolderIsStuck` | backend/modules/integration/sync_service.py:1058-1094 | so does a SKU held by a row that no item of these pages updates |
| `Deadlock.SwappedSkusNeverComplete` | backend/modules/integration/sync_service.py:1058-1094 | and any two products, in any table and any catalogue, that traded SKUs since the last sync |
| `Deadlock.FailingAttempt` | backend/modules/integration/sync_service.py:1058-1094 | a calm attempt that fails and moves no row has met stuck rows |
| `Deadlock.PagePasses` | backend/modules/integration/sync_service.py:265-320 | otherwise a bounded number of calm attempts passes the page |
| `Deadlock.CompletesIff` | backend/modules/integration/sync_service.py:250-382 | for every table and every catalogue with distinct ids and SKUs and admissible prices: a sync can complete if and only if no rows are stuck, and then calm retries complete it |
| `Deadlock.CleanPassRaisesIff` | backend/modules/integration/sync_service.py:1047-1094 | a clean pass over the first k pages meets a raising item if and only if there is such an item on them |
| `Contention.CalmNeverRaises` | backend/modules/integration/sync_service.py:1047-1094 | on a table grown from nothing, no item raises without a fault, even when SKUs repeat |
| `Contention.PassedPageMatches` | backend/modules/integration/sync_service.py:265-320 | on an uncontested page, any attempt that passes it leaves the clean pass's table, whatever failed in the attempts before |
| `Contention.ContestedRunDiffers` | backend/modules/integration/sync_service.py:1070-1078 | two items of one page sharing a SKU that no earlier page carries: a run exists that completes with another table |
| `Contention.EveryRunMatchesIff` | backend/modules/integration/sync_service.py:250-382 | from an empty table, for every catalogue with distinct ids: every completing run of attempts leaves the clean pass's table if and only if no page has two complete items that share a SKU no earlier page carries |
| `Checkpoint.CheckpointRepository.Upsert` | backend/modules/integration/checkpoint.py:84-94 | sets exactly the columns it was given, on the stored row or a fresh one |
| `Checkpoint.CheckpointRepository.ClaimOperation` | backend/modules/integration/checkpoint.py:41-76 | without the guard: 409 and nothing changed; with it: the claim specification decides, and only a granted claim writes |
| `Checkpoint.ClaimHandsOver` | backend/modules/integration/checkpoint.py:52-67 | a takeover or continuation keeps both pages, totals, cursor, last result and started_at; a finished operation is replayed untouched to its owner and reset to page 1, started now, for everyone else; every other grant is running, without an error, and leased until 600 seconds later |
| `Checkpoint.TakeoverNeedsExpiry` | backend/modules/integration/checkpoint.py:50-66 | an unfinished operation changes owner only at or after its expires_at, and each such change is counted with the time it expired |
| `Checkpoint.FinishedOperationCountsAsTakeover` | backend/modules/integration/checkpoint.py:54-62 | ttl_takeovers of a new operation after another owner's finished one is 1 exactly when the finished one's lease has run out, although nothing was taken over |
| `Locks.SyncLock.Acquire` | backend/modules/integration/locks.py:23-26 | SET NX EX: succeeds exactly when no live entry is there, and then the entry is this owner's until the TTL |
| `Locks.SyncLock.Release` | backend/modules/integration/locks.py:28-39 | deletes the key exactly when the live entry is this owner's; a lock never acquired releases nothing |
| `Locks.HolderExcludes` | backend/modules/integration/locks.py:23-39 | once taken, a lock keeps every other owner out for exactly 600 seconds: no acquire succeeds, no release by another owner changes anything, its own release frees it |
| `Locks.FreeIsTaken` | backend/modules/integration/locks.py:23-26 | and an acquire fails only so: an absent or expired key is taken in the caller's own name |
| `Requests.BlingSyncService.SumCounts` | backend/modules/integration/sync_service.py:366-368 | the loop over the six keys computes the summed totals |
| `Requests.BlingSyncService.StoreProducts` | backend/modules/integration/sync_service.py:366-381 | the live checkpoint row after a batch is the one the specification writes; what its columns, totals and lease hold is Reports.ProductCheckpoint and Reports.ProductLease |
| `Requests.BlingSyncService.SyncProductRequest` | backend/modules/integration/sync_service.py:342-382 | one request on live objects: guard refused, claim refused (both change nothing), finished operation replayed, or claim, batch and checkpoint as specified; the rows named Reports.Product* and Reports.ReplayReports say what is then stored and reported |
| `Requests.BlingSyncService.SumItemCounts` | backend/modules/integration/sync_service.py:791-801 | the loop over the eight keys computes the summed totals |
| `Requests.BlingSyncService.StoreItems` | backend/modules/integration/sync_service.py:791-813 | the live order-items row after a batch is the one the specification writes; a failing batch leaves the stored cursor |
| `Requests.BlingSyncService.BackfillOrderItems` | backend/modules/integration/sync_service.py:816-902 | rejects exactly the out-of-range limits; otherwise selects limit + 1 rows, enriches the first `limit` in order and reports what was left; Reports.BatchFilesReplies says which lines are then stored and what each number counts |
| `Requests.BlingSyncService.BackfillOrderItemRequest` | backend/modules/integration/sync_service.py:777-814 | one order-items request on live objects, with the same four outcomes; Reports.BatchFilesReplies, Reports.ItemCheckpoint and Reports.ItemLease say what is then stored and reported |
| `Reports.ProductLease` | backend/modules/integration/sync_service.py:369-382 | after a product batch written at any time that leaves more to do, every claim by another operation id is refused for exactly the next 600 seconds |
| `Reports.ItemLease` | backend/modules/integration/sync_service.py:807-813 | the same after an order-items batch that leaves more to do or failed |
| `Reports.ClaimLease` | backend/modules/integration/checkpoint.py:50-67 | the same from a granted claim on |
| `Reports.ProductCheckpoint` | backend/modules/integration/sync_service.py:365-382 | the row is failed with an error exactly when something failed, completed with the finishing time exactly at the natural end, running otherwise; unfinished it names the reported next page; each total grows by the reported field of its own name; the claim's columns stay |
| `Reports.ReplayReports` | backend/modules/integration/sync_service.py:349-364 | a finished operation posted again reports its pages, no work and no more to do, and changes nothing |
| `Reports.ItemCheckpoint` | backend/modules/integration/sync_service.py:790-814 | the same for order items: failed, completed or running, finished_at, the cursor only after a batch without failures, the last result, the remainder, the eight totals by name; every other column stays |
| `Reports.MoreIff` | backend/modules/integration/sync_repository.py:134-166 | has_more is reported exactly when an order without items beyond the cursor was left out of the selection |
| `Reports.BatchFilesReplies` | backend/modules/integration/sync_service.py:816-902 | for every table, remote, cursor and limit: each selected order then has exactly the lines its own reply gives it and every other order what it had; each reported number is the number of such replies, grown orders, new lines or lines without a product; the remainder counts the orders still without items |
| `Invariants.ItemCountsAdd` | backend/modules/integration/sync_service.py:791-801 | each stored order-items total grows by exactly its own field of the batch result |
| `Invariants.WriteKeepsItemLedger` | backend/modules/integration/sync_service.py:791-801 | writing a batch keeps the eight stored totals equal to the sums over the operation's batches |
| `Invariants.FromIsFirstClean` | backend/modules/integration/sync_service.py:789-803 | where an operation's batches start: at the cursor posted with its first clean batch |
| `Invariants.ClaimKeepsProducts` | backend/modules/integration/checkpoint.py:41-67 | a granted claim keeps: finished pages final, pages fitting the status, totals summing the batches since the operation started |
| `Invariants.WriteKeepsLedger` | backend/modules/integration/sync_service.py:366-368 | adding a batch result keeps all six stored totals equal to the sums over the committed batches |
| `Invariants.WorkKeepsProducts` | backend/modules/integration/sync_service.py:342-382 | a batch and its checkpoint write keep the same invariant, in any weather |
| `Invariants.CompletedMeansFullPass` | backend/modules/integration/sync_service.py:342-382 | a completed products checkpoint means the table of one uninterrupted pass over all pages |
| `Invariants.FinishedPagesAreStored` | backend/modules/integration/sync_service.py:366-381 | every complete item of pages 1..last_completed_page has its final row |
| `Invariants.SelectionLaw` | backend/modules/integration/sync_repository.py:134-166 | the selected orders are item-less, ascending and beyond the cursor; one that was left out is past the last selected one, and then has_more is true |
| `Invariants.SettledAfterwards` | backend/modules/integration/sync_service.py:833-886 | a batch settles every selected order unless something failed, and never unsettles an order it did not select |
| `Invariants.CleanBatchSettles` | backend/modules/integration/sync_service.py:801-813 | the cursor a clean batch stores passes only settled orders, but for those left behind; a clean last batch settles all the others |
| `Invariants.StaysBehind` | backend/modules/integration/sync_service.py:789-813 | an order left behind is selected no more: later batches leave its items and attempts alone |
| `Invariants.SettledIff` | backend/modules/integration/sync_service.py:777-814 | an order of a completed operation is settled if and only if it was not left behind or has items anyway |
| `Invariants.CleanFinishIff` | backend/modules/integration/sync_service.py:777-814 | for one batch: a clean last batch that started from a posted cursor leaves every order of the operation settled if and only if those at or before that cursor were settled before it |
| `Invariants.FailedBatchKeepsCursor` | backend/modules/integration/sync_service.py:802-803 | after a failing batch the stored cursor still passes only orders that were settled before |
| `Invariants.WorkKeepsItems` | backend/modules/integration/sync_service.py:777-814 | an order-items batch keeps the invariant behind the two rows above |
| `Invariants.OtherWritesKeepDb` | backend/modules/integration/sync_service.py:1395-1446 | new orders, new lines and catalogue products stored on the way disturb neither operation |
| `OrderLines.Order.UpsertOrderItem` | backend/modules/integration/sync_service.py:1395-1446 | one payload line on the live order: applied, deferred or raising as the specification says, and only an applied one changes a line |
| `OrderLines.Order.Flush` | backend/modules/integration/sync_service.py:1416-1446 | the flush stores the line unless the check constraints refuse it, and then nothing changes |
| `OrderLines.Order.UpsertOrderItems` | backend/modules/integration/sync_service.py:1386-1393 | the loop applies the lines in order, counts the deferred ones, and a raising line puts all lines back |
| `OrderLines.AppliedLineMeans` | backend/modules/integration/sync_service.py:1395-1457 | the row a line touches takes what the payload states, keeps what it leaves out, computes an unstated total from price, quantity and discount, and keeps its product and name |
| `OrderLines.LineOutcome` | backend/modules/integration/sync_service.py:1395-1446 | a line is deferred exactly when no row has its SKU and no product is found; it raises only on a raising lookup or on what the check constraints refuse |
| `OrderLines.DeferredAreUnfound` | backend/modules/integration/sync_service.py:1386-1393 | the deferred count of a payload is the number of its lines that find no product when their turn comes, up to the line that raises |
| `OrderLines.OtherRowsStay` | backend/modules/integration/sync_service.py:1395-1457 | a line touches only the row filed under its own SKU |
| `OrderLines.LinesStayUnique` | backend/modules/integration/sync_service.py:1395-1446 | any payload leaves at most one line per SKU and loses none, with no constraint enforcing it |
| `OrderLines.AllSettle` | backend/modules/integration/sync_service.py:1386-1446 | after a payload with distinct SKUs every one of its lines says exactly what its row says, or has no product |
| `OrderLines.ReplayIsNoOp` | backend/modules/integration/sync_service.py:1386-1457 | applying a payload with distinct SKUs twice leaves the lines, quantities and totals of applying it once |
| `LineReplay.PayloadByKeys` | backend/modules/integration/sync_service.py:1386-1457 | a payload is independent per SKU: each row is the fold of its own lines, and it raises exactly when one of those folds does |
| `LineReplay.RowInClosedForm` | backend/modules/integration/sync_service.py:1448-1457 | a row after any lines: the last stated quantity and price, and the total set by the last line that states a total or a price |
| `LineReplay.ReplaysByKeys` | backend/modules/integration/sync_service.py:1386-1457 | a payload replays if and only if every SKU's lines do |
| `LineReplay.KeyReplaysIff` | backend/modules/integration/sync_service.py:1395-1457 | one SKU's lines replay if and only if no total drifts and the lines that at first found no product state nothing that shows |
| `LineReplay.ReplayIff` | backend/modules/integration/sync_service.py:1386-1457 | for every order and every payload that applies: applying it again leaves the same lines, quantities and totals if and only if that holds of every SKU |
| `LineReplay.KnownProductsReplayIff` | backend/modules/integration/sync_service.py:1386-1457 | where every product is found at once, if and only if no SKU's deciding line states a nonzero price and no total, with no quantity stated up to it and the quantity after the payload other than the one before |
| `LineReplay.RepeatedSkuIsNotReplayable` | backend/modules/integration/sync_service.py:1448-1457 | the family that fails most simply: a line with a price, then one of the same SKU with a quantity above 1 |
| `OrderItems.QuerySkipsNone` | backend/modules/integration/sync_repository.py:134-166 | the keyset query returns wanted orders in ascending order and skips none before its last row |
| `OrderItems.CountIsCardinality` | backend/modules/integration/sync_repository.py:168-181 | the reported remainder is the number of orders without items |
| `OrderItems.OrderTable.Enrich` | backend/modules/integration/sync_service.py:837-884 | one order on the live table gets the lines and the outcome the specification gives, which OrderItems.RunByReplies derives from the reply; other orders stay |
| `OrderItems.OrderTable.EnrichAll` | backend/modules/integration/sync_service.py:837-884 | the loop over the selected orders equals the fold, tally included; OrderItems.RunByReplies says what the fold leaves |
| `OrderItems.AttemptLaw` | backend/modules/integration/sync_service.py:837-884 | an order that was not enriched keeps exactly its lines, an enriched one gains exactly the created ones; that an answered order gets its lines is OrderItems.RunByReplies |
| `OrderItems.RunLaw` | backend/modules/integration/sync_service.py:837-886 | selected = processed + without items + not found + failed; orders with items keep some; unselected orders and their attempts are untouched; a failed attempt shows in the tally |
| `OrderItems.RunByReplies` | backend/modules/integration/sync_service.py:837-884 | over every run of ascending ids: an order whose reply has lines that can be filed ends with exactly those lines filed one by one, every other with what it had; processed, failed, not_found and without items count the replies that are filed, raise, are absent or are empty; enriched and created are the orders and lines the table grew by |
| `OrderItems.FriendlyRunDoesNotFail` | backend/modules/integration/sync_service.py:837-884 | if the remote answers every order with lines that can be filed, no selected order fails |
| `OrderItems.FailedOrderKeepsNothing` | backend/modules/integration/sync_service.py:860-884 | an order whose attempt failed keeps exactly the items it had before the batch |
| `OrderSync.FindOrder` | backend/modules/integration/sync_repository.py:86-89 | finds the first order with the external id, or reports that there is none |
| `OrderSync.OrderSyncService.UpsertOrder` | backend/modules/integration/sync_service.py:1304-1393 | one order in its savepoint on the live table; the line errors it deferred survive even its own rollback |
| `OrderSync.OrderSyncService.AttemptOrder` | backend/modules/integration/sync_service.py:942-959 | around one item: its own failure is recorded first, then its deferred line errors, and none is left over |
| `OrderSync.OrderSyncService.RunOrderSync` | backend/modules/integration/sync_service.py:942-981 | the item loop equals the fold, with its counters and its error log |
| `OrderSync.OrderSyncService.BackfillOrders` | backend/modules/integration/sync_service.py:687-775 | the loop with its early continues equals the fold over the ids; it raises exactly when an unguarded lookup finds two rows, and then everything is rolled back; OrderOutcomes.BackfillIsExact says what the fold leaves and counts |
| `OrderSync.StoredOrder` | backend/modules/integration/sync_service.py:1304-1384 | the stored order has the line-by-line upsert of what it had, and the payload's known channel unless an existing one is to be preserved |
| `OrderOutcomes.UpsertDecides` | backend/modules/integration/sync_service.py:1304-1384 | an item raises exactly when its id is empty, or its order is there or may be created and its lines or the flush raise; it is missing exactly when there is no order and none may be created |
| `OrderSync.MissingIdsShareOneOrder` | backend/modules/integration/sync_service.py:1313-1319 | payloads without an id never create a second order: they all update the one filed under "None" |
| `OrderSync.UpsertLaw` | backend/modules/integration/sync_service.py:1304-1384 | one order per external id and one line per SKU are kept; a failing order changes nothing, a good one only its own; no creation when creating is off; a preserved channel never changes |
| `OrderSync.RunSyncLaw` | backend/modules/integration/sync_service.py:942-981 | over a whole run the same uniqueness holds, processed + failed is the number of items, created + updated = processed, and the table grows by exactly the created orders |
| `OrderSync.RunIsFoldOfSurvivors` | backend/modules/integration/sync_service.py:942-981 | a run with failures leaves the table and the success counters of a run over exactly the items that did not raise, in which none raises |
| `OrderSync.DeferredRecordedOnce` | backend/modules/integration/sync_service.py:942-960 | the log of a run, entry by entry: an item's failure is in it once exactly if the item raised, its line errors exactly as often as its lines were deferred, in the items' order, an item's failure before its line errors |
| `OrderOutcomes.ErrorsAreUnfound` | backend/modules/integration/sync_service.py:1386-1393 | and that is how many of the item's lines find no product, up to the line that raises, even when the item is rolled back |
| `OrderSync.BackfillStepLaw` | backend/modules/integration/sync_service.py:703-761 | one id adds one to exactly one outcome, and the orders and the channels already set stay; which one, and what is stored, is OrderOutcomes.StepCounts and OrderOutcomes.BackfillIsExact |
| `OrderSync.BackfillLaw` | backend/modules/integration/sync_service.py:687-775 | with one row per external id, as every sync keeps: it does not raise; selected = missing_local + already_linked + bling_not_found + failed + processed; processed = with_channel + without_store + unmatched_channel; no order is created, no set channel changes; the table itself is in OrderOutcomes.BackfillIsExact |
| `OrderOutcomes.StepCounts` | backend/modules/integration/sync_service.py:703-761 | for any table with one row per id: an unknown id, a linked order, a fetch that raises, an absent order, a refused payload, and a stored one with a known, no or an unknown store each move exactly their own counters by one |
| `OrderOutcomes.BackfillIsExact` | backend/modules/integration/sync_service.py:687-775 | over distinct ids, each answered with its own order: every order still without a channel whose payload is not refused ends with that payload's lines upserted into its own and the payload's known channel, every other row is as it was, and each counter is the number of ids with its fate |
| `Protocol.RunsStaySafe` | backend/modules/integration/router.py:138-204 | every run of any number of requests, step by step, stays safe: product batches, order-items batches, order syncs, and `/sync-all`, which claims both entities in one transaction; locks taken, lost and released, also while an exception is on its way out; commits and rollbacks |
| `Protocol.CompletedRunsConverge` | backend/modules/integration/sync_service.py:250-382 | for a catalogue with distinct ids and SKUs: after any interleaving of requests, fetch failures, item failures, rollbacks, lease expiries and takeovers, a completed products checkpoint means the table of one uninterrupted pass |
| `Protocol.OneProductRequest` | backend/modules/integration/router.py:331-357 | a whole product request of the protocol with nobody in its way takes the lock, commits exactly its claim and its batch, and gives the lock back |
| `Protocol.OneItemRequest` | backend/modules/integration/router.py:285-309 | a whole order-items request of the protocol likewise |
| `Completion.CalmRequestsComplete` | frontend/src/services/sync-batches.ts:3-24 | from every state that keeps the invariant, with the guard and the lock free: at most one more request than there are full pages left completes the operation of its current owner |
| `Completion.SomeRunCompletes` | backend/modules/integration/sync_service.py:250-382 | so from every initial world a run completes, and it leaves the clean pass's table |
| `Completion.OnlyCommitsWrite` | backend/modules/integration/router.py:138-204 | the database moves by commits alone, each to what its own transaction saw; a rollback leaves no trace and frees the guard |
| `Protocol.CheckpointTellsTheTruth` | backend/modules/integration/sync_service.py:265-381 | at every commit: finished pages are stored, current_page = last_completed_page + 1 unless completed, when they are equal, and both entities' stored totals sum the committed batches since the last reset |
| `Protocol.NothingBeyondIsLeft` | backend/modules/integration/sync_service.py:777-814 | over all runs, no order beyond the cursor posted with the operation's first clean batch is left behind |
| `Protocol.ItemRunsSettleOrders` | backend/modules/integration/sync_service.py:777-902 | over all runs, at completion (and before, for orders the stored cursor has passed): an order that had no items when the operation started is settled if and only if it is not one of those at or before the first clean batch's posted cursor that were unsettled then, or has items anyway; but for those, the stored cursor passes no order whose last attempt failed and left it bare |
| `Protocol.AllSettledIff` | backend/modules/integration/sync_service.py:777-902 | so a completed operation has settled all its orders if and only if the ones it left behind have got items from elsewhere |
| `Protocol.DisciplinedRunsSettleAll` | backend/modules/integration/sync_service.py:777-902 | so over every run in which requests post a cursor only while the checkpoint they claimed holds one |
| `ForeignCursor.CursorLeavesBehind` | backend/modules/integration/sync_service.py:789-803 | for every table, remote and limit: a first clean batch leaves every unsettled order at or before its posted cursor unsettled |
| `ForeignCursor.ForeignCursorSkipsOrders` | backend/modules/integration/sync_service.py:789-803 | from every installation without checkpoints, for every order without items and every cursor at or after it: a run that completes the operation with that order unsettled |
| `ForeignCursor.StallsIff` | frontend/src/services/sync-batches.ts:43-43 | the browser finds that its cursor did not advance if and only if a cursor is stored, more orders wait after the batch that starts there, and that clean batch ends on the browser's own cursor |
| `ForeignCursor.TakeoverStalls` | frontend/src/services/sync-batches.ts:43-43 | and that is reached on every expired operation with a stored cursor and more than one batch of orders after it |
| `Protocol.OneClaimAtATime` | backend/modules/integration/checkpoint.py:69-76 | at most one open transaction holds the guard, and so a claim, whatever the Redis lock does |
| `Protocol.OwnerMovesOnlyAfterExpiry` | backend/modules/integration/checkpoint.py:41-67 | an unfinished operation changes owner only by a commit whose claim came at or after the lease end while no other transaction was open; pages, totals and cursor were kept |
| `Protocol.LiveLockBelongsToItsHolder` | backend/modules/integration/locks.py:28-39 | no step but its holder's own release removes a live Redis lock |
| `Protocol.LockIsNotEnough` | backend/modules/integration/router.py:347-357 | a run in which a second request holds the Redis lock while the first one's transaction is open; only the guard turns it away |
| `Browser.BatchAdvances` | backend/modules/integration/sync_service.py:265-326 | a batch that neither fails nor ends has passed exactly its n pages, all of them full |
| `Browser.CalmBatchDoesNotFail` | backend/modules/integration/sync_service.py:250-340 | with nothing going wrong outside and no negative price, no batch fails, wherever it resumes |
| `Browser.PostedProducts` | backend/modules/integration/sync_service.py:342-382 | a posted product request of the current owner is granted; without a failure it gets strictly closer to the end or completes; re-posting a finished operation changes nothing and ends the loop |
| `Browser.PostedItems` | backend/modules/integration/sync_service.py:777-814 | the same for order items: strictly fewer orders lie beyond the stored cursor, a failure leaves the next start where it was |
| `Browser.Tab.PostItems` | frontend/src/services/sync-batches.ts:31-36 | one fetch: granted to the current owner, refused only while the guard is taken |
| `Browser.Tab.RunProductBatches` | frontend/src/services/sync-batches.ts:3-24 | the loop terminates, "did not advance" is unreachable, it finishes when nothing goes wrong, finishing means a completed checkpoint and the clean pass's table, every other ending keeps the operation resumable, and a finished id ends the loop without syncing |
| `Browser.Tab.RunOrderItemBatches` | frontend/src/services/sync-batches.ts:26-50 | the loop terminates, "did not advance" is unreachable from a cursor that is not ahead of the server's, it finishes when the remote answers everything; finishing means exactly the orders not left behind, or with items anyway, are settled, and for a tab without a cursor on a new operation all that had none before; a finished id ends the loop without syncing, whatever the tab's cursor; an unfinished end keeps operation and cursor fit for the next call |
| `Insights.EventIdInjective` | frontend/src/features/executive-insights/lifecycle/executive-insight-lifecycle-engine.ts:83-89 | an event id determines key, type and version, even for keys containing colons |
| `Insights.ExecutiveInsightLifecycleEngine.Save` | frontend/src/features/executive-insights/lifecycle/executive-insight-lifecycle-engine.ts:131-143 | the record is stored under its key and one event carrying its version is appended |
| `Insights.ExecutiveInsightLifecycleEngine.FindActive` | frontend/src/features/executive-insights/lifecycle/executive-insight-lifecycle-engine.ts:155-155 | every ACTIVE record exactly once, and nothing else |
| `Insights.ExecutiveInsightLifecycleEngine.ReconcileDetected` | frontend/src/features/executive-insights/lifecycle/executive-insight-lifecycle-engine.ts:110-152 | one detected insight: state and buckets as specified; which bucket and which record is InsightHistory.DetectOneBuckets and InsightHistory.DetectedRecord |
| `Insights.ExecutiveInsightLifecycleEngine.ResolveActive` | frontend/src/features/executive-insights/lifecycle/executive-insight-lifecycle-engine.ts:158-174 | one undetected active record: resolved, with its event |
| `Insights.ExecutiveInsightLifecycleEngine.ResolveUndetected` | frontend/src/features/executive-insights/lifecycle/executive-insight-lifecycle-engine.ts:156-176 | the second loop equals its fold over the listed records |
| `Insights.ExecutiveInsightLifecycleEngine.Reconcile` | frontend/src/features/executive-insights/lifecycle/executive-insight-lifecycle-engine.ts:97-185 | reconcile on live objects equals the two folds, whatever order the repository lists active records in; what the lists then hold is InsightHistory.ReconcileLaw |
| `Insights.ExecutiveInsightLifecycleEngine.Archive` | frontend/src/features/executive-insights/lifecycle/executive-insight-lifecycle-engine.ts:187-210 | throws exactly for a missing or archived key and then changes nothing; otherwise archives that record alone and appends one event at its current version |
| `InsightHistory.RunsAreConsistent` | frontend/src/features/executive-insights/lifecycle/executive-insight-lifecycle-engine.ts:97-210 | over every run of reconcile and archive from an empty repository, records equal replays and event labels are as built |
| `InsightHistory.ReplayIsTheRecord` | frontend/src/features/executive-insights/lifecycle/executive-insight-lifecycle-engine.ts:14-62 | folding a key's timeline gives its record's status, version, occurrence count, first and last detection, resolution and last run, and the events come in the legal order CREATED, (ACTIVATED UPDATED* RESOLVED)*, cut short anywhere, with ARCHIVED last |
| `InsightHistory.EventIdsAreUnique` | frontend/src/features/executive-insights/lifecycle/executive-insight-lifecycle-engine.ts:83-89 | no event id ever repeats |
| `InsightHistory.CountersCount` | frontend/src/features/executive-insights/lifecycle/executive-insight-lifecycle-engine.ts:32-35 | the version counts the key's lifecycle events and the occurrence count its CREATED, ACTIVATED and UPDATED events |
| `InsightHistory.ResolveLaw` | frontend/src/features/executive-insights/lifecycle/executive-insight-lifecycle-engine.ts:155-176 | the second loop resolves exactly the listed undetected keys; every other record keeps its fields and gets no event |
| `InsightHistory.ResolvedListLaw` | frontend/src/features/executive-insights/lifecycle/executive-insight-lifecycle-engine.ts:175-184 | the returned resolved list names exactly those keys |
| `InsightHistory.DetectLaw` | frontend/src/features/executive-insights/lifecycle/executive-insight-lifecycle-engine.ts:106-153 | each input entry, duplicates included, lands in one bucket, which one by InsightHistory.SharesOfPass; undetected and archived records stay and get no event |
| `InsightHistory.DetectOneBuckets` | frontend/src/features/executive-insights/lifecycle/executive-insight-lifecycle-engine.ts:110-152 | by the status the key had just before: none appends to created, NEW or RESOLVED to activated, ACTIVE to updated, each the record now stored; ARCHIVED appends the stored record to ignored; no other list moves |
| `InsightHistory.DetectedRecord` | frontend/src/features/executive-insights/lifecycle/executive-insight-lifecycle-engine.ts:32-62 | field by field what a detection stores and which event it appends: a new record NEW with count 1, a known one ACTIVE with version and count one more and its first detection kept |
| `InsightHistory.SharesOfPass` | frontend/src/features/executive-insights/lifecycle/executive-insight-lifecycle-engine.ts:106-153 | over a whole pass, exactly how often each key is in created, activated, updated and ignored, from its status at the start and the number of its entries |
| `InsightHistory.ResolvedAreStored` | frontend/src/features/executive-insights/lifecycle/executive-insight-lifecycle-engine.ts:156-176 | every record in the returned resolved list is RESOLVED and is the one stored under its key |
| `InsightHistory.ArchivedRecord` | frontend/src/features/executive-insights/lifecycle/executive-insight-lifecycle-engine.ts:187-210 | archiving changes that record's status and nothing else of it, and appends one ARCHIVED event at its current version |
| `InsightHistory.ReconcileLaw` | frontend/src/features/executive-insights/lifecycle/executive-insight-lifecycle-engine.ts:97-185 | after reconcile every ACTIVE key was detected; resolved is exactly the previously ACTIVE undetected keys; archived records are untouched and get no event; unchanged is empty; every key is in created, activated, updated and ignored exactly as often as its status before and the number of its entries say, one entry per input in all |
| `SalesCache.Tab.Lookup` | frontend/src/services/product-sales.ts:22-25 | over every run: serves a value if and only if it is cached, not forced, under a minute old, and every invalidation since its fetch began left the revision that fetch found; otherwise the request in flight carries the revision read |
| `SalesCache.Tab.Store` | frontend/src/services/product-sales.ts:26-28 | an arriving answer: the live tab holds what the world holds after that arrival, other tabs what they held |
| `SalesCache.Tab.Invalidate` | frontend/src/services/product-sales.ts:17-21 | the live tab and the shared revision are those of the world after that invalidation, and no value passes the check any more unless it carries the new revision |
| `SalesCache.StepKeepsInv` | frontend/src/services/product-sales.ts:15-29 | every step of any tab keeps each cached value and each request in flight tied to the revision in force when its fetch began |
| `SalesCache.ServedIffEchoes` | frontend/src/services/product-sales.ts:15-29 | over all runs of any number of tabs, on whatever revision an earlier session left: a cached value passes the check if and only if it arrived under a minute ago and every invalidation since its fetch began repeats the revision that fetch found |
| `SalesCache.ServedIsCurrent` | frontend/src/services/product-sales.ts:15-29 | with a fresh revision per invalidation, a served value's fetch began after the last invalidation and it is under 60 s old |
| `SalesCache.HeldIsWhatWasAnswered` | frontend/src/services/product-sales.ts:22-29 | over every run of any number of tabs: what a tab holds for a period is what the first answer to a request of that tab for that period brought, with the time of that answer and the revision the request found, and the tab has not invalidated since |
| `SalesCache.SameMillisecondServesStale` | frontend/src/services/product-sales.ts:17-21 | for any tabs, period and start: two invalidations in one millisecond around a fetch leave its stale value served |
| `Tokens.IntegrationConnectionService.ApplyTokens` | backend/modules/integration/service.py:74-85 | the row gets the tokens and an expiry of now plus the lifetime less the margin, never in the past; that these are the granted access and refresh token is Tokens.GrantedIsServed |
| `Tokens.IntegrationConnectionService.GetValidAccessToken` | backend/modules/integration/service.py:172-202 | an unusable row raises and a fresh one is served, both unchanged; otherwise the re-read row decides: served if another session refreshed it, refreshed if not, re-authorisation required on 400 and 401 only; what a refresh stores and the next call answers is Tokens.GrantedIsServed and Tokens.RefreshThenServe |
| `Tokens.GrantedIsServed` | backend/modules/integration/service.py:69-85 | after a granted reply the row is usable and holds exactly the granted token, and calls take it as fresh exactly until its expiry less the margin |
| `Tokens.RefusedKeepsTokens` | backend/modules/integration/service.py:183-202 | a refused one keeps token and expiry; only 400 and 401 make the row unusable |
| `Tokens.RefreshThenServe` | backend/modules/integration/service.py:172-202 | on the live service, a call after a granted refresh and before that moment answers the granted token, whatever the provider would say |
| `Tokens.ServedTokensWereGranted` | backend/modules/integration/service.py:172-202 | over every run of any number of workers, every token served is the one stored at the start or one that some worker was granted and whose transaction committed |
| `Tokens.RefreshIsARun` | backend/modules/integration/service.py:183-202 | and the locked refresh is sending and receiving, whatever other workers and the clock do in between: the worker holds the row and gives the answer that the method's contract states |
| `Tokens.StepKeepsInv` | backend/modules/integration/service.py:183-202 | every step of any worker keeps the invariant behind the next two rows |
| `Tokens.RefreshesAreSpaced` | backend/modules/integration/service.py:69-85 | over every run of any number of workers, after a refresh that commits no further refresh call is sent before its lifetime less both margins has passed |
| `Tokens.ServedTokensLast` | backend/modules/integration/service.py:172-202 | every token served from the store has more than both margins of its life left, less the time it took from issue to storage |
| `Tokens.RollbackRepeatsTheRefresh` | backend/modules/integration/service.py:183-202 | without the commit the spacing fails: a rolled-back refresh is repeated at once, from the old row |
| `ApiClient.PrefixGrows` | backend/modules/integration/client.py:170-218 | the next page extends the collected prefix, and is full exactly when the list reaches that far |
| `ApiClient.RequestsSpan` | backend/modules/integration/client.py:57-62 | any n throttled requests span at least n - 1 intervals |
| `ApiClient.Outcome` | backend/modules/integration/client.py:138-160 | a call makes at most BLING_MAX_RETRIES + 2 GETs and answers with the last one |
| `ApiClient.GivesUpOnlyWhenSpent` | backend/modules/integration/client.py:138-160 | only 401 (at most once), 429 and 5xx are asked again, and a call returns one of them only when that budget is spent |
| `ApiClient.BlingApiClient.ThrottledGet` | backend/modules/integration/client.py:57-62 | one more request, at least an interval after the one before |
| `ApiClient.BlingApiClient.GetAuthenticated` | backend/modules/integration/client.py:125-160 | the retry loop terminates with the specified answer after the specified number of throttled GETs; a transport error is raised |
| `ApiClient.BlingApiClient.ListResource` | backend/modules/integration/client.py:170-218 | returns exactly the remote list, or its first max_pages pages, also when the length is a multiple of the page size, after exactly the pages needed; raises if and only if the final answer to one of those is not 200, at the first such page, with its status or as a transport error; GETs are bounded per page |
| `Abc.SortLaw` | frontend/src/features/inventory-intelligence/classifiers/index.ts:32-32 | the ranking is descending and holds exactly the given products |
| `Abc.SortIsStable` | frontend/src/features/inventory-intelligence/classifiers/index.ts:32-32 | products that sold the same keep the order in which they were given |
| `Abc.ClassifyAbc` | frontend/src/features/inventory-intelligence/classifiers/index.ts:28-62 | the map gives every product, in rank order, the class of its rank |
| `Abc.RankOrderIsClassOrder` | frontend/src/features/inventory-intelligence/classifiers/index.ts:28-62 | classes never improve down the ranking |
| `Abc.ParetoCuts` | frontend/src/features/inventory-intelligence/classifiers/index.ts:28-62 | class A is a leading run holding at least 80% of sales, A with B at least 95%, and what ranks before any positive-valued member holds less than 80% (95%) |
| `Abc.NothingSoldIsC` | frontend/src/features/inventory-intelligence/classifiers/index.ts:34-39 | with a zero total every product is in the map, in class C |
| `Abc.MapHasRankClasses` | frontend/src/features/inventory-intelligence/classifiers/index.ts:28-62 | with distinct ids, every product is in the map with the class of its own rank |
| `Abc.BetterSellerNoWorse` | frontend/src/features/inventory-intelligence/classifiers/index.ts:28-62 | with distinct ids, a better seller never gets a worse class than a poorer one |
| `Margins.GetProductAnalytics` | backend/modules/analytics/service.py:47-88 | per product its own id, revenue and quantity, a margin that times the covered revenue is what its cost leaves, and a coverage that times the revenue is what is covered; total revenue and quantity are the sums over the returned products; the average margin is the margin of the summed covered revenue and known cost |
| `Margins.PooledMarginIsAMean` | backend/modules/analytics/service.py:78-80 | if products without covered revenue have no known cost, the average margin lies within any bounds of the per-product margins |
| `Margins.AverageReachesIff` | backend/modules/analytics/service.py:78-80 | for non-negative revenue and cost and every bound: the average margin reaches it if and only if the giveaways' cost is at most what the products sold earn above it |
| `Margins.AverageInRangeIff` | backend/modules/analytics/service.py:78-80 | so it lies within the margins shown on exactly that condition, and never above them |
| `Margins.GiveawayLeavesTheRange` | backend/modules/analytics/service.py:78-80 | when all products sold have one margin, the average falls below it if and only if some giveaway has a known cost |

## Left out

- Protocol.CompletedRunsConverge: speaks of the product table without last_synced_at; category names, which the last
  item to mention a category decides, are stored by the model but not part of the theorem. A description stored as null
  and as the empty string are the same value here.
- Protocol.CompletedRunsConverge: takes the remote list to be cut into pages, all full but the last, because a short
  page in the middle ends the source's loop early.
- Protocol.ItemRunsSettleOrders: only cursors of the "id:" form are modelled, not legacy external ids.
- Protocol.RunsStaySafe: `/backfill-orders`, which takes neither lock nor guard, is modelled in OrderSync alone, and
  the plain CRUD routes not at all.
- Protocol.RunsStaySafe: products fetched for an order line's detail are taken to equal their list entries. Orders that
  `/sync-all` enriched in a batch whose exception it swallowed are written by a WriteOrders action and leave no attempt.
- Protocol.RunsStaySafe: of `/sync-all` the claims, batches, order writes and the commit are modelled, not its phase
  report, its counts, or the rows it keeps for phases without a claim.
- Browser.Tab.RunOrderItemBatches: requires, unless the tab re-posts a finished operation, that the tab's cursor is not
  ahead of the server's, which every ending of the loop re-establishes. A tab that takes over an operation whose stored
  cursor is behind its own starts outside that; ForeignCursor.StallsIff says exactly when it then stops.
- Browser.Tab.RunProductBatches: other browsers appear only as requests that find the guard taken; interleaved
  batches of several browsers are Protocol's subject.
- Checkpoint.CheckpointRepository.Upsert: updated_at, which only the status endpoint reads, is not modelled.
- OrderSync.StoredOrder: order status, customer fields, dates and order totals are not modelled, nor is the best-effort
  detail fetch for a newly created order without items.
- OrderSync.OrderSyncService.UpsertOrder: the same.
- OrderSync.OrderSyncService.RunOrderSync: the fetch that fails before the loop, IncompleteSyncItemError (which orders
  never raise) and the sync log's own counters are not modelled.
- OrderOutcomes.BackfillIsExact: takes the requested ids to be distinct and, like OrderOutcomes.StepCounts, the remote
  to answer with the order it was asked for; of a payload for another order OrderSync.StoredOrder,
  OrderOutcomes.UpsertDecides and OrderSync.BackfillLaw still hold.
- OrderSync.OrderSyncService.BackfillOrders: the updated counter, which equals processed because nothing is created, and
  the orders' other fields are not modelled.
- OrderLines.Order.UpsertOrderItem: the product lookup's answer, and the product it may insert, are a parameter of the
  payload line, the same when the payload is applied again; money is exact integer cents where the source uses floats.
- Products.Session.UpsertProduct: payload fields arrive parsed and trimmed, and last_synced_at is left out; non-numeric
  and non-dictionary payloads appear only as items that raise.
- Deadlock.CompletesIff: takes the prices of all complete items to be admissible; a negative one raises on every
  attempt.
- Contention.EveryRunMatchesIff: the runs are product batches alone, from an empty table; products that order lines
  bring in are Protocol's subject.
- Tokens.RefreshesAreSpaced: disconnecting, the OAuth code exchange and encryption are left out; the
  requires-reauthorisation status is lost when its own request rolls back, as in the source.
- ApiClient.BlingApiClient.GetAuthenticated: a token provider that raises and the back-off waits are not modelled; idle
  time before a request is arbitrary.
- ApiClient.BlingApiClient.ListResource: a payload that is a single object instead of a list is not modelled.
- InsightHistory.RunsAreConsistent: the repository's archive is taken to set the status of that record and nothing else;
  reopen, whose repository side is not part of this model, is left out.
- Insights.EventIdInjective: an insight's descriptive fields are one opaque value.
- SalesCache.ServedIffEchoes: the tabs' clocks are one monotone clock, past the revision an earlier session left; the
  request that fails and stores nothing is the flight that never arrives.
- Abc.ClassifyAbc: exact reals instead of doubles.
- Margins.GetProductAnalytics: growth, top lists, order coverage and the marketplace report are left out.
- The marketplace, channel and listing syncs, status endpoints and sync logs: upserts of the same shape that would only
  add easy members.
- Login, sessions, permissions, period ranges, replenishment scores, executive rules, the React interface.
