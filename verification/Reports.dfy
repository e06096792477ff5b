/** What one batch stores and reports, field by field: from the replies, the outcomes and the clock. */
module Reports {
  import opened Common
  import opened Products
  import opened Convergence
  import opened Checkpoint
  import opened OrderItems
  import opened Requests
  import opened Invariants
  import OrderLines

  // ------------------------------------------------------------------ leases

  /** Nobody else gets the row before this time. */
  ghost predicate HeldUntil(row: Row, time: int) {
    forall op, at, uuid ::
      op != row.totals.operation ==> (Claim(Some(row), op, at, uuid) == Err(OwnedByAnother) <==> at < time)
  }

  lemma LeaseHolds(row: Row, time: int)
    requires row.status != Completed && row.totals.expiresAt == Some(time)
    ensures HeldUntil(row, time)
  {
    forall op, at, uuid | op != row.totals.operation
      ensures Claim(Some(row), op, at, uuid) == Err(OwnedByAnother) <==> at < time
    {
      ClaimRefusal(Some(row), op, at, uuid);
    }
  }

  /** A product batch written at `now` that leaves the operation unfinished keeps every other operation id
      out for the next 600 seconds, and no longer. */
  lemma ProductLease(db: Db, cat: Catalogue, pages: nat, w: Weather, now: int)
    requires db.products.Some? && db.products.value.currentPage >= 1 && db.products.value.status != Completed
    ensures var (db', r) := WorkProducts(db, cat, pages, w, now);
            && db'.products.Some? && db'.products.value.totals.operation == db.products.value.totals.operation
            && (r.hasMore ==> HeldUntil(db'.products.value, now + 600))
  {
    hide RunPages, AddCounts, HeldUntil, Claim;
    var (db', r) := WorkProducts(db, cat, pages, w, now);
    PagesLaw(db.store, db.products.value.currentPage, cat, PAGE_SIZE, w, pages);
    if r.hasMore { LeaseHolds(db'.products.value, now + 600); }
  }

  /** So does an order-items batch. */
  lemma ItemLease(db: Db, cursor: Option<nat>, limit: nat, remote: Remote, now: int)
    requires db.items.Some? && db.items.value.status != Completed
    ensures var (db', r) := WorkItems(db, cursor, limit, remote, now);
            && db'.items.Some? && db'.items.value.totals.operation == db.items.value.totals.operation
            && (r.hasMore || r.failed > 0 ==> HeldUntil(db'.items.value, now + 600))
  {
    hide RunOrders, Selected, HasMore, CountWithoutItems, ItemCounts, HeldUntil, Claim;
    var (db', r) := WorkItems(db, cursor, limit, remote, now);
    if r.hasMore || r.failed > 0 { LeaseHolds(db'.items.value, now + 600); }
  }

  /** And a granted claim, from the moment it is made. */
  lemma ClaimLease(cp: Option<Row>, op: Option<string>, now: int, uuid: string)
    requires Claim(cp, op, now, uuid).Ok? && !Replays(cp, op)
    ensures HeldUntil(Claim(cp, op, now, uuid).value, now + 600)
  {
    hide HeldUntil;
    ClaimHandsOver(cp, op, now, uuid);
    LeaseHolds(Claim(cp, op, now, uuid).value, now + 600);
  }

  // -------------------------------------------------------- the product checkpoint

  /** The row a product batch leaves: failed with an error, completed with its finishing time, or running;
      unfinished it names the next page, finished the last one, and the claim's own columns stay. */
  ghost predicate ProductRowAfter(row: Row, row': Row, r: BatchResult, now: int) {
    && (row'.status == Failed <==> r.failed > 0) && (row'.status == Completed <==> r.naturalEnd)
    && (row'.status == Running <==> r.failed == 0 && !r.naturalEnd)
    && row'.finishedAt == (if r.naturalEnd then Some(now) else None) && (row'.error.Some? <==> r.failed > 0)
    && row'.lastCompletedPage == r.endPage
    && (row'.status != Completed ==> r.nextPage == Some(row'.currentPage))
    && (row'.status == Completed ==> row'.currentPage == r.endPage)
    && row'.startedAt == row.startedAt && row'.totals.operation == row.totals.operation
    && row'.totals.takeovers == row.totals.takeovers && row'.totals.lastExpiredAt == row.totals.lastExpiredAt
  }

  /** Each stored total grows by the field it is named after. */
  ghost predicate ProductTotals(before: map<string, int>, after: map<string, int>, r: BatchResult) {
    && Get(after, "fetched") == Get(before, "fetched") + r.fetched
    && Get(after, "processed") == Get(before, "processed") + r.processed
    && Get(after, "created") == Get(before, "created") + r.created
    && Get(after, "updated") == Get(before, "updated") + r.updated
    && Get(after, "skipped") == Get(before, "skipped") + r.skipped
    && Get(after, "failed") == Get(before, "failed") + r.failed
  }

  lemma TotalsByName(before: map<string, int>, r: BatchResult)
    ensures ProductTotals(before, AddCounts(before, r, |PRODUCT_KEYS|), r)
  {
    CountsAdd(before, r, |PRODUCT_KEYS|);
    hide AddCounts;
    var after := AddCounts(before, r, |PRODUCT_KEYS|);
    assert Get(after, PRODUCT_KEYS[0]) == Get(before, PRODUCT_KEYS[0]) + Field(r, PRODUCT_KEYS[0]);
    assert Get(after, PRODUCT_KEYS[1]) == Get(before, PRODUCT_KEYS[1]) + Field(r, PRODUCT_KEYS[1]);
    assert Get(after, PRODUCT_KEYS[2]) == Get(before, PRODUCT_KEYS[2]) + Field(r, PRODUCT_KEYS[2]);
    assert Get(after, PRODUCT_KEYS[3]) == Get(before, PRODUCT_KEYS[3]) + Field(r, PRODUCT_KEYS[3]);
    assert Get(after, PRODUCT_KEYS[4]) == Get(before, PRODUCT_KEYS[4]) + Field(r, PRODUCT_KEYS[4]);
    assert Get(after, PRODUCT_KEYS[5]) == Get(before, PRODUCT_KEYS[5]) + Field(r, PRODUCT_KEYS[5]);
  }

  lemma ProductCheckpoint(db: Db, cat: Catalogue, pages: nat, w: Weather, now: int)
    requires db.products.Some? && db.products.value.currentPage >= 1 && db.products.value.status != Completed
    ensures var (db', r) := WorkProducts(db, cat, pages, w, now);
            && db'.products.Some? && ProductRowAfter(db.products.value, db'.products.value, r, now)
            && ProductTotals(db.products.value.totals.counts, db'.products.value.totals.counts, r)
            && r.operation == db.products.value.totals.operation && r.startPage == db.products.value.currentPage
  {
    hide RunPages, AddCounts, ProductTotals;
    var row := db.products.value;
    PagesLaw(db.store, row.currentPage, cat, PAGE_SIZE, w, pages);
    var b := RunPages(StartBatch(db.store, row.currentPage), cat, PAGE_SIZE, w, pages);
    TotalsByName(row.totals.counts, ToResult(row.currentPage, b));
    assert ProductTotals(row.totals.counts, AddCounts(row.totals.counts, ToResult(row.currentPage, b), |PRODUCT_KEYS|),
                         WorkProducts(db, cat, pages, w, now).1) by {
      SameTotals(row.totals.counts, ToResult(row.currentPage, b), row.totals.operation);
    }
  }

  lemma SameTotals(before: map<string, int>, r: BatchResult, op: Option<string>)
    requires ProductTotals(before, AddCounts(before, r, |PRODUCT_KEYS|), r)
    ensures ProductTotals(before, AddCounts(before, r, |PRODUCT_KEYS|), r.(operation := op))
  {
    hide AddCounts;
  }

  /** Re-posting a finished operation reports its last pages and no work. */
  lemma ReplayReports(db: Db, cat: Catalogue, pages: nat, w: Weather, now: int)
    requires db.products.Some? && db.products.value.currentPage >= 1 && db.products.value.status == Completed
    ensures var (db', r) := WorkProducts(db, cat, pages, w, now);
            && db' == db && !r.hasMore && r.nextPage.None? && r.operation == db.products.value.totals.operation
            && r.startPage == db.products.value.currentPage && r.endPage == db.products.value.lastCompletedPage
            && r.pagesProcessed == r.fetched == r.processed == r.created == r.updated == r.skipped == r.failed == 0
  {
  }

  // ----------------------------------------------------- the order-items checkpoint

  ghost predicate ItemRowAfter(row: Row, row': Row, r: ItemsResult, now: int) {
    && (row'.status == Failed <==> r.failed > 0) && (row'.status == Completed <==> r.failed == 0 && !r.hasMore)
    && (row'.status == Running <==> r.failed == 0 && r.hasMore)
    && row'.finishedAt == (if r.failed == 0 && !r.hasMore then Some(now) else None)
    && row'.totals.cursor == (if r.failed == 0 then Some(r.nextCursor) else row.totals.cursor)
    && row'.error == row.error && row'.currentPage == row.currentPage && row'.lastCompletedPage == row.lastCompletedPage
    && row'.totals.lastResult == Some(r) && row'.totals.remaining == Some(r.remaining)
    && row'.startedAt == row.startedAt && row'.totals.operation == row.totals.operation
    && row'.totals.takeovers == row.totals.takeovers && row'.totals.lastExpiredAt == row.totals.lastExpiredAt
  }

  ghost predicate ItemTotals(before: map<string, int>, after: map<string, int>, r: ItemsResult) {
    && Get(after, "selected") == Get(before, "selected") + r.selected
    && Get(after, "processed") == Get(before, "processed") + r.processed
    && Get(after, "orders_enriched") == Get(before, "orders_enriched") + r.ordersEnriched
    && Get(after, "items_created") == Get(before, "items_created") + r.itemsCreated
    && Get(after, "unknown_products") == Get(before, "unknown_products") + r.unknownProducts
    && Get(after, "detail_without_items") == Get(before, "detail_without_items") + r.detailWithoutItems
    && Get(after, "not_found") == Get(before, "not_found") + r.notFound
    && Get(after, "failed") == Get(before, "failed") + r.failed
  }

  lemma ItemFieldNames(r: ItemsResult)
    ensures ItemField(r, "selected") == r.selected && ItemField(r, "processed") == r.processed
    ensures ItemField(r, "orders_enriched") == r.ordersEnriched && ItemField(r, "items_created") == r.itemsCreated
    ensures ItemField(r, "unknown_products") == r.unknownProducts
    ensures ItemField(r, "detail_without_items") == r.detailWithoutItems
    ensures ItemField(r, "not_found") == r.notFound && ItemField(r, "failed") == r.failed
  {
    ItemKeysDiffer();
    assert ITEM_KEYS[0] == "selected" && ITEM_KEYS[1] == "processed" && ITEM_KEYS[2] == "orders_enriched"
        && ITEM_KEYS[3] == "items_created" && ITEM_KEYS[4] == "unknown_products"
        && ITEM_KEYS[5] == "detail_without_items" && ITEM_KEYS[6] == "not_found" && ITEM_KEYS[7] == "failed";
  }

  lemma ItemTotalsByName(before: map<string, int>, r: ItemsResult)
    ensures ItemTotals(before, ItemCounts(before, r, |ITEM_KEYS|), r)
  {
    ItemCountsAdd(before, r, |ITEM_KEYS|);
    ItemFieldNames(r);
    hide ItemCounts, ItemField;
    var after := ItemCounts(before, r, |ITEM_KEYS|);
    assert Get(after, ITEM_KEYS[0]) == Get(before, ITEM_KEYS[0]) + ItemField(r, ITEM_KEYS[0]);
    assert Get(after, ITEM_KEYS[1]) == Get(before, ITEM_KEYS[1]) + ItemField(r, ITEM_KEYS[1]);
    assert Get(after, ITEM_KEYS[2]) == Get(before, ITEM_KEYS[2]) + ItemField(r, ITEM_KEYS[2]);
    assert Get(after, ITEM_KEYS[3]) == Get(before, ITEM_KEYS[3]) + ItemField(r, ITEM_KEYS[3]);
    assert Get(after, ITEM_KEYS[4]) == Get(before, ITEM_KEYS[4]) + ItemField(r, ITEM_KEYS[4]);
    assert Get(after, ITEM_KEYS[5]) == Get(before, ITEM_KEYS[5]) + ItemField(r, ITEM_KEYS[5]);
    assert Get(after, ITEM_KEYS[6]) == Get(before, ITEM_KEYS[6]) + ItemField(r, ITEM_KEYS[6]);
    assert Get(after, ITEM_KEYS[7]) == Get(before, ITEM_KEYS[7]) + ItemField(r, ITEM_KEYS[7]);
  }

  lemma ItemCheckpoint(db: Db, cursor: Option<nat>, limit: nat, remote: Remote, now: int)
    requires db.items.Some? && db.items.value.status != Completed
    ensures var (db', r) := WorkItems(db, cursor, limit, remote, now);
            && db'.items.Some? && ItemRowAfter(db.items.value, db'.items.value, r, now)
            && ItemTotals(db.items.value.totals.counts, db'.items.value.totals.counts, r)
            && db.items.value.totals.operation in {None, Some(r.operation)}
  {
    hide RunOrders, Selected, HasMore, CountWithoutItems, ItemCounts, ItemTotals;
    ItemTotalsByName(db.items.value.totals.counts, WorkItems(db, cursor, limit, remote, now).1);
  }

  // ---------------------------------------------------------- an order-items batch

  /** The report of a batch, from the replies for the orders it selected. */
  ghost predicate ReportsReplies(o: Orders, o': Orders, ids: seq<nat>, remote: Remote, r: ItemsResult)
    requires InTable(o, ids)
  {
    && r.selected == |ids| && r.processed == CountKind(o, remote, ids, |ids|, Filed)
    && r.detailWithoutItems == CountKind(o, remote, ids, |ids|, Blank)
    && r.notFound == CountKind(o, remote, ids, |ids|, Absent) && r.failed == CountKind(o, remote, ids, |ids|, Failing)
    && r.ordersEnriched == CountGrown(o, remote, ids, |ids|) && r.itemsCreated == SumGrowth(o, remote, ids, |ids|)
    && r.unknownProducts == SumUnfound(o, remote, ids, |ids|)
    && r.remaining == |set id | id in o'.index && Bare(o', id)|
    && r.nextCursor == (if ids == [] then None else Some(ids[|ids| - 1]))
  }

  /** More is reported exactly when a wanted order was left out, so never without need. */
  lemma MoreIff(o: Orders, after: Option<nat>, limit: nat)
    requires ValidOrders(o) && limit >= 1
    ensures HasMore(o, after, limit) <==> exists id :: Wanted(o, after, id) && id !in Selected(o, after, limit)
  {
    SelectionLaw(o, after, limit);
    SelectedIsPrefix(o, after, limit);
    QuerySkipsNone(o, o.index, after, limit + 1);
    hide FindWithoutItems, Selected, HasMore, ValidOrders, Wanted;
    if HasMore(o, after, limit) {
      var raw, ids := FindWithoutItems(o, o.index, after, limit + 1), Selected(o, after, limit);
      AllButLast(ids, raw[limit]);
      assert raw[limit] in raw && raw[limit] !in ids;
    }
  }

  /** A batch files exactly what the remote answers: each selected order has the lines its reply gives it,
      every other order what it had, and each reported number is the number of such replies or lines. */
  lemma BatchFilesReplies(db: Db, cursor: Option<nat>, limit: nat, remote: Remote, now: int)
    requires ValidOrders(db.orders) && db.items.Some? && db.items.value.status != Completed && limit >= 1
    ensures var (db', r) := WorkItems(db, cursor, limit, remote, now);
            var ids := Selected(db.orders, After(db.items.value.totals, cursor), limit);
            && InTable(db.orders, ids) && ReportsReplies(db.orders, db'.orders, ids, remote, r)
            && (r.hasMore <==> exists id :: Wanted(db.orders, After(db.items.value.totals, cursor), id) && id !in ids)
            && db'.orders.index == db.orders.index && db'.orders.lines.Keys == db.orders.lines.Keys
            && forall id :: id in db.orders.lines ==>
                 db'.orders.lines[id] == if id in ids then LinesAfter(db.orders, remote, id) else db.orders.lines[id]
  {
    hide RunOrders, Selected, HasMore, WorkItems, CountKind, CountGrown, SumGrowth, SumUnfound, LinesAfter, ValidOrders,
         ReportsReplies, CountWithoutItems, Wanted;
    MoreIff(db.orders, After(db.items.value.totals, cursor), limit);
    var after := After(db.items.value.totals, cursor);
    var ids := Selected(db.orders, after, limit);
    SelectionLaw(db.orders, after, limit);
    assert InTable(db.orders, ids) by { SelectedInTable(db.orders, after, limit); }
    SelectedRun(db.orders, db.log.attempts, ids, remote);
    WorkIsTheRun(db, cursor, limit, remote, now);
    var run := RunOrders(Work(db.orders, NO_ITEMS, db.log.attempts), ids, remote, |ids|);
    ReportOfTally(db.orders, run, ids, remote, HasMore(db.orders, after, limit), Owner(db.items.value));
  }

  lemma SelectedInTable(o: Orders, after: Option<nat>, limit: nat)
    ensures InTable(o, Selected(o, after, limit))
  {
    hide FindWithoutItems;
  }

  lemma WorkIsTheRun(db: Db, cursor: Option<nat>, limit: nat, remote: Remote, now: int)
    requires db.items.Some? && db.items.value.status != Completed
    ensures var after := After(db.items.value.totals, cursor);
            var ids := Selected(db.orders, after, limit);
            var run := RunOrders(Work(db.orders, NO_ITEMS, db.log.attempts), ids, remote, |ids|);
            var (db', r) := WorkItems(db, cursor, limit, remote, now);
            db'.orders == run.orders
            && r == ItemsOf(run.tally, |ids|, CountWithoutItems(run.orders, run.orders.index), LastOf(ids),
                            HasMore(db.orders, after, limit), Owner(db.items.value))
  {
    hide RunOrders, Selected, HasMore, CountWithoutItems, WrittenItems;
  }

  lemma SelectedRun(o: Orders, attempts: map<nat, bool>, ids: seq<nat>, remote: Remote)
    requires ValidOrders(o) && Ascending(ids) && InTable(o, ids)
    ensures var run := RunOrders(Work(o, NO_ITEMS, attempts), ids, remote, |ids|);
            && ValidOrders(run.orders) && ByReplies(Work(o, NO_ITEMS, attempts), ids, remote, |ids|, run)
            && run.orders.index == o.index && run.orders.lines.Keys == o.lines.Keys
            && forall id :: id in o.lines ==>
                 run.orders.lines[id] == if id in ids then LinesAfter(o, remote, id) else o.lines[id]
  {
    hide RunOrders, ByReplies, LinesAfter, ValidOrders, Ascending;
    var s := Work(o, NO_ITEMS, attempts);
    RunByReplies(s, ids, remote, |ids|);
    RunLaw(s, ids, remote, |ids|);
    assert ids[..|ids|] == ids;
  }

  lemma ReportOfTally(o: Orders, run: Work, ids: seq<nat>, remote: Remote, hasMore: bool, owner: string)
    requires InTable(o, ids) && ValidOrders(run.orders)
    requires exists attempts :: ByReplies(Work(o, NO_ITEMS, attempts), ids, remote, |ids|, run)
    ensures ReportsReplies(o, run.orders, ids, remote,
                           ItemsOf(run.tally, |ids|, CountWithoutItems(run.orders, run.orders.index), LastOf(ids),
                                   hasMore, owner))
  {
    CountRemaining(run.orders);
    hide CountKind, CountGrown, SumGrowth, SumUnfound, CountWithoutItems, ValidOrders;
  }

  lemma CountRemaining(o: Orders)
    requires ValidOrders(o)
    ensures CountWithoutItems(o, o.index) == |set id | id in o.index && Bare(o, id)|
  {
    CountIsCardinality(o, o.index);
  }
}
