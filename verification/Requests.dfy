/** The two resumable requests: claim the checkpoint, run one batch, write the checkpoint.
    Db is everything one transaction sees; `log` is bookkeeping for the proofs that no code reads. */
module Requests {
  import opened Common
  import opened Products
  import opened Convergence
  import opened Checkpoint
  import opened OrderItems

  const PAGE_SIZE: nat := 100

  /** One order-items request that ran: the cursor the browser posted and what the batch reported. */
  datatype Post = Post(cursor: Option<nat>, result: ItemsResult)

  /** batches: results written since the product operation started. started: orders without items
      when the order-items operation started. posts: its requests that ran since. attempts: whether an
      order's last attempt in this operation did not fail. skipped: the orders at or before the cursor of
      its first batch without failures that were not settled when that batch began. */
  datatype Log = Log(batches: seq<BatchResult>, started: set<nat>, posts: seq<Post>, attempts: map<nat, bool>,
                     skipped: set<nat>)

  predicate HasClean(posts: seq<Post>) {
    exists i :: 0 <= i < |posts| && posts[i].result.failed == 0
  }

  /** The cursor posted with the first batch without failures: until then nothing is stored, and every
      batch starts after whatever its own request posted. */
  function From(posts: seq<Post>): Option<nat> {
    if posts == [] then None
    else
      var before, last := posts[..|posts| - 1], posts[|posts| - 1];
      if HasClean(before) then From(before) else if last.result.failed == 0 then last.cursor else None
  }

  datatype Db = Db(products: Option<Row>, items: Option<Row>, store: Store, orders: Orders, log: Log)

  predicate Handled(o: Orders, attempts: map<nat, bool>, id: nat) {
    HasItems(o, id) || (id in attempts && attempts[id])
  }

  /** The order has items, or its last attempt in this operation did not fail. */
  predicate Settled(db: Db, id: nat) {
    Handled(db.orders, db.log.attempts, id)
  }

  /** What a first clean batch that starts after this cursor leaves behind. */
  function PassedOver(db: Db, cursor: Option<nat>): set<nat> {
    set id | id in db.orders.lines && !Beyond(cursor, id) && !Settled(db, id)
  }

  // -------------------------------------------------------- product requests

  const PRODUCT_KEYS := ["fetched", "processed", "created", "updated", "skipped", "failed"]

  function Get(counts: map<string, int>, key: string): int {
    if key in counts then counts[key] else 0
  }

  /** Python's `getattr(result, key)` for the six summed fields. */
  function Field(r: BatchResult, key: string): int {
    if key == "fetched" then r.fetched
    else if key == "processed" then r.processed
    else if key == "created" then r.created
    else if key == "updated" then r.updated
    else if key == "skipped" then r.skipped
    else if key == "failed" then r.failed
    else 0
  }

  function AddCounts(counts: map<string, int>, r: BatchResult, n: nat): map<string, int>
    requires n <= |PRODUCT_KEYS|
  {
    if n == 0 then counts
    else
      var sofar := AddCounts(counts, r, n - 1);
      sofar[PRODUCT_KEYS[n - 1] := Get(sofar, PRODUCT_KEYS[n - 1]) + Field(r, PRODUCT_KEYS[n - 1])]
  }

  function ClaimProducts(db: Db, op: Option<string>, now: int, uuid: string): Result<Db, HttpError> {
    match Claim(db.products, op, now, uuid)
    case Err(e) => Err(e)
    case Ok(row) =>
      var log := if Restarts(db.products, op) then db.log.(batches := []) else db.log;
      Ok(db.(products := Some(row), log := log))
  }

  function ReplayResult(row: Row): BatchResult
    requires row.currentPage >= 0
  {
    BatchResult(row.currentPage, row.lastCompletedPage, 0, 0, 0, 0, 0, 0, 0, None, false, true, map[],
                row.totals.operation)
  }

  /** The checkpoint row a batch writes. `result.next_page or result.end_page` is the current page. */
  function WrittenProducts(row: Row, r: BatchResult, now: int): Row {
    var totals := row.totals.(counts := AddCounts(row.totals.counts, r, |PRODUCT_KEYS|),
                              expiresAt := Some(now + LEASE_SECONDS));
    row.(currentPage := if r.nextPage.Some? && r.nextPage.value != 0 then r.nextPage.value else r.endPage,
         lastCompletedPage := r.endPage, totals := totals,
         status := if r.failed > 0 then Failed else if r.naturalEnd then Completed else Running,
         finishedAt := if r.naturalEnd then Some(now) else None,
         error := if r.failed > 0 then Some("Product batch failures; retry from checkpoint") else None)
  }

  function WorkProducts(db: Db, cat: Catalogue, pages: nat, w: Weather, now: int): (Db, BatchResult)
    requires db.products.Some? && db.products.value.currentPage >= 1
  {
    var row := db.products.value;
    if row.status == Completed then (db, ReplayResult(row))
    else
      var b := RunPages(StartBatch(db.store, row.currentPage), cat, PAGE_SIZE, w, pages);
      var r := ToResult(row.currentPage, b);
      (db.(products := Some(WrittenProducts(row, r, now)), store := b.store,
           log := db.log.(batches := db.log.batches + [r])),
       r.(operation := row.totals.operation))
  }

  // ----------------------------------------------------- order-item requests

  function ClaimItems(db: Db, op: Option<string>, now: int, uuid: string): Result<Db, HttpError> {
    match Claim(db.items, op, now, uuid)
    case Err(e) => Err(e)
    case Ok(row) =>
      var log := if Restarts(db.items, op)
                 then db.log.(started := (set id | id in db.orders.lines && Bare(db.orders, id)),
                              posts := [], attempts := map[], skipped := {})
                 else db.log;
      Ok(db.(items := Some(row), log := log))
  }

  const ITEM_KEYS := ["selected", "processed", "orders_enriched", "items_created", "unknown_products",
                      "detail_without_items", "not_found", "failed"]

  function ItemField(r: ItemsResult, key: string): int {
    if key == "selected" then r.selected
    else if key == "processed" then r.processed
    else if key == "orders_enriched" then r.ordersEnriched
    else if key == "items_created" then r.itemsCreated
    else if key == "unknown_products" then r.unknownProducts
    else if key == "detail_without_items" then r.detailWithoutItems
    else if key == "not_found" then r.notFound
    else if key == "failed" then r.failed
    else 0
  }

  function ItemCounts(counts: map<string, int>, r: ItemsResult, n: nat): map<string, int>
    requires n <= |ITEM_KEYS|
  {
    if n == 0 then counts
    else
      var sofar := ItemCounts(counts, r, n - 1);
      sofar[ITEM_KEYS[n - 1] := Get(sofar, ITEM_KEYS[n - 1]) + ItemField(r, ITEM_KEYS[n - 1])]
  }

  function ItemsOf(t: ItemsTally, selected: nat, remaining: nat, next: Option<nat>, hasMore: bool, owner: string)
    : ItemsResult
  {
    ItemsResult(selected, t.processed, t.enriched, t.created, t.unknown, t.withoutItems, t.notFound,
                t.failed, remaining, next, hasMore, owner)
  }

  function WrittenItems(row: Row, r: ItemsResult, now: int): Row {
    var totals := row.totals.(
      counts := ItemCounts(row.totals.counts, r, |ITEM_KEYS|), remaining := Some(r.remaining),
      cursor := if r.failed == 0 then Some(r.nextCursor) else row.totals.cursor,
      lastResult := Some(r), expiresAt := Some(now + LEASE_SECONDS));
    row.(totals := totals,
         status := if r.failed > 0 then Failed else if r.hasMore then Running else Completed,
         finishedAt := if !r.hasMore && r.failed == 0 then Some(now) else None)
  }

  /** totals.get("cursor", cursor): the stored cursor wins over the browser's. */
  function After(t: Totals, cursor: Option<nat>): Option<nat> {
    if t.cursor.Some? then t.cursor.value else cursor
  }

  function Selected(o: Orders, after: Option<nat>, limit: nat): (r: seq<nat>)
    ensures |r| <= limit && forall id :: id in r ==> Bare(o, id)
  {
    var raw := FindWithoutItems(o, o.index, after, limit + 1);
    assert forall id :: id in raw[..if |raw| > limit then limit else |raw|] ==> id in raw;
    if |raw| > limit then raw[..limit] else raw
  }

  function HasMore(o: Orders, after: Option<nat>, limit: nat): bool {
    |FindWithoutItems(o, o.index, after, limit + 1)| > limit
  }

  function LastOf(ids: seq<nat>): Option<nat> {
    if ids == [] then None else Some(ids[|ids| - 1])
  }

  function Owner(row: Row): string {
    if row.totals.operation.Some? then row.totals.operation.value else ""
  }

  function WorkItems(db: Db, cursor: Option<nat>, limit: nat, remote: Remote, now: int): (Db, ItemsResult)
    requires db.items.Some?
  {
    var row := db.items.value;
    if row.status == Completed && row.totals.lastResult.Some? then (db, row.totals.lastResult.value)
    else
      var after := After(row.totals, cursor);
      var ids := Selected(db.orders, after, limit);
      var run := RunOrders(Work(db.orders, NO_ITEMS, db.log.attempts), ids, remote, |ids|);
      var r := ItemsOf(run.tally, |ids|, CountWithoutItems(run.orders, run.orders.index), LastOf(ids),
                       HasMore(db.orders, after, limit), Owner(row));
      var skipped := if HasClean(db.log.posts) || r.failed > 0 then db.log.skipped else PassedOver(db, cursor);
      (db.(items := Some(WrittenItems(row, r, now)), orders := run.orders,
           log := db.log.(posts := db.log.posts + [Post(cursor, r)], attempts := run.attempts, skipped := skipped)), r)
  }

  // ---------------------------------------------------- the live service

  class BlingSyncService {
    const repo: CheckpointRepository
    const session: Session
    const table: OrderTable
    ghost var log: Log

    constructor (repo: CheckpointRepository, session: Session, table: OrderTable, ghost log: Log)
      ensures this.repo == repo && this.session == session && this.table == table && this.log == log
    {
      this.repo, this.session, this.table, this.log := repo, session, table, log;
    }

    ghost function View(): Db
      reads this, repo, session, table
    {
      Db(repo.Get("products"), repo.Get("order_items"), session.Contents(), table.Contents(), log)
    }

    /** for key in (...): totals[key] = totals.get(key, 0) + getattr(result, key) */
    method SumCounts(counts: map<string, int>, r: BatchResult) returns (sum: map<string, int>)
      ensures sum == AddCounts(counts, r, |PRODUCT_KEYS|)
    {
      sum := counts;
      for n := 0 to |PRODUCT_KEYS|
        invariant sum == AddCounts(counts, r, n)
      {
        var key := PRODUCT_KEYS[n];
        sum := sum[key := Get(sum, key) + Field(r, key)];
      }
    }

    /** Writes the product checkpoint after a batch. */
    method StoreProducts(row: Row, batch: BatchResult, later: int)
      requires repo.Get("products") == Some(row)
      modifies repo`rows
      ensures repo.rows == old(repo.rows)["products" := WrittenProducts(row, batch, later)]
    {
      hide AddCounts;
      var counts := SumCounts(row.totals.counts, batch);
      var totals := row.totals.(counts := counts, expiresAt := Some(later + LEASE_SECONDS));
      var current := if batch.nextPage.Some? && batch.nextPage.value != 0 then batch.nextPage.value else batch.endPage;
      var status := if batch.failed > 0 then Failed else if batch.naturalEnd then Completed else Running;
      var finished := if batch.naturalEnd then Some(later) else None;
      var error := if batch.failed > 0 then Some("Product batch failures; retry from checkpoint") else None;
      var _ := repo.Upsert("products", Patch(Some(current), Some(batch.endPage), Some(status), Some(totals),
                                             None, Some(finished), Some(error)));
    }

    /** for key in (...): totals[key] = totals.get(key, 0) + getattr(result, key) */
    method SumItemCounts(counts: map<string, int>, r: ItemsResult) returns (sum: map<string, int>)
      ensures sum == ItemCounts(counts, r, |ITEM_KEYS|)
    {
      hide ItemField;
      sum := counts;
      for n := 0 to |ITEM_KEYS|
        invariant sum == ItemCounts(counts, r, n)
      {
        var key := ITEM_KEYS[n];
        sum := sum[key := Get(sum, key) + ItemField(r, key)];
      }
    }

    /** Writes the order-items checkpoint after a batch; a failing batch leaves the cursor where it was. */
    method StoreItems(row: Row, result: ItemsResult, later: int)
      requires repo.Get("order_items") == Some(row)
      modifies repo`rows
      ensures repo.rows == old(repo.rows)["order_items" := WrittenItems(row, result, later)]
    {
      hide ItemCounts;
      var counts := SumItemCounts(row.totals.counts, result);
      var totals := row.totals.(counts := counts, remaining := Some(result.remaining));
      if result.failed == 0 { totals := totals.(cursor := Some(result.nextCursor)); }
      totals := totals.(lastResult := Some(result), expiresAt := Some(later + LEASE_SECONDS));
      var status := if result.failed > 0 then Failed else if result.hasMore then Running else Completed;
      var finished := if !result.hasMore && result.failed == 0 then Some(later) else None;
      var _ := repo.Upsert("order_items", NO_PATCH.(totals := Some(totals), status := Some(status),
                                                    finishedAt := Some(finished)));
    }

    method SyncProductRequest(op: Option<string>, now: int, later: int, uuid: string, guardFree: bool,
                              cat: Catalogue, pages: nat, w: Weather)
      returns (r: Result<BatchResult, HttpError>)
      requires Keyed(session.products) && 1 <= pages <= 5
      requires repo.Get("products").Some? ==> repo.Get("products").value.currentPage >= 1
      modifies this`log, repo, session
      ensures Keyed(session.products)
      ensures !(guardFree || old(repo.holdsGuard)) ==> r == Err(GuardBusy) && View() == old(View())
      ensures guardFree || old(repo.holdsGuard) ==>
                match ClaimProducts(old(View()), op, now, uuid)
                case Err(e) => r == Err(e) && View() == old(View())
                case Ok(claimed) =>
                  claimed.products.Some? && claimed.products.value.currentPage >= 1 && r.Ok?
                  && (View(), r.value) == WorkProducts(claimed, cat, pages, w, later)
      ensures repo.holdsGuard == (guardFree || old(repo.holdsGuard))
    {
      hide RunPages, AddCounts, WrittenProducts;
      ghost var before := View();
      var claim := repo.ClaimOperation("products", op, now, uuid, guardFree);
      if claim.Err? { return Err(claim.error); }
      var row := claim.value;
      ghost var claimed := ClaimProducts(before, op, now, uuid).value;
      log := claimed.log;
      assert View() == claimed;
      if row.status == Completed { return Ok(ReplayResult(row)); }
      var result := SyncProductsBatch(session, cat, row.currentPage, pages, PAGE_SIZE, w);
      var batch := result.value;
      StoreProducts(row, batch, later);
      log := log.(batches := log.batches + [batch]);
      r := Ok(batch.(operation := row.totals.operation));
    }

    /** backfill_order_items: select, enrich one by one, report. */
    method BackfillOrderItems(limit: int, after: Option<nat>, remote: Remote, ghost attempts: map<nat, bool>)
      returns (r: Result<ItemsResult, BoundsError>)
      modifies table
      ensures r.Err? <==> !(1 <= limit <= 100)
      ensures r.Err? ==> table.Contents() == old(table.Contents())
      ensures r.Ok? ==>
                var o := old(table.Contents());
                var ids := Selected(o, after, limit);
                var run := RunOrders(Work(o, NO_ITEMS, attempts), ids, remote, |ids|);
                && table.Contents() == run.orders
                && r.value == ItemsOf(run.tally, |ids|, CountWithoutItems(run.orders, run.orders.index), LastOf(ids),
                                      HasMore(o, after, limit), "")
    {
      hide RunOrders, FindWithoutItems, CountWithoutItems;
      if !(1 <= limit <= 100) { return Err(InvalidBounds); }
      var raw := FindWithoutItems(table.Contents(), table.index, after, limit + 1);
      var hasMore := |raw| > limit;
      var ids := if hasMore then raw[..limit] else raw;
      assert ids == Selected(table.Contents(), after, limit);
      var tally := table.EnrichAll(ids, remote, attempts);
      var next := if ids == [] then None else Some(ids[|ids| - 1]);
      r := Ok(ItemsOf(tally, |ids|, CountWithoutItems(table.Contents(), table.index), next, hasMore, ""));
    }

    method BackfillOrderItemRequest(op: Option<string>, now: int, later: int, uuid: string, guardFree: bool,
                                    cursor: Option<nat>, limit: nat, remote: Remote)
      returns (r: Result<ItemsResult, HttpError>)
      requires 1 <= limit <= 100
      modifies this`log, repo, table
      ensures !(guardFree || old(repo.holdsGuard)) ==> r == Err(GuardBusy) && View() == old(View())
      ensures guardFree || old(repo.holdsGuard) ==>
                match ClaimItems(old(View()), op, now, uuid)
                case Err(e) => r == Err(e) && View() == old(View())
                case Ok(claimed) =>
                  claimed.items.Some? && r.Ok? && (View(), r.value) == WorkItems(claimed, cursor, limit, remote, later)
      ensures repo.holdsGuard == (guardFree || old(repo.holdsGuard))
    {
      hide RunOrders, ItemCounts, Selected, HasMore, CountWithoutItems, WrittenItems, Claim, Restarts;
      ghost var before := View();
      var claim := repo.ClaimOperation("order_items", op, now, uuid, guardFree);
      if claim.Err? { return Err(claim.error); }
      var row := claim.value;
      log := ClaimItems(before, op, now, uuid).value.log;
      ghost var claimed := View();
      if row.status == Completed && row.totals.lastResult.Some? { return Ok(row.totals.lastResult.value); }
      var batch := BackfillOrderItems(limit, After(row.totals, cursor), remote, log.attempts);
      var result := batch.value.(operation := Owner(row));
      StoreItems(row, result, later);
      log := WorkItems(claimed, cursor, limit, remote, later).0.log;
      r := Ok(result);
    }
  }
}
