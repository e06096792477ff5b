/** What every claim and every batch keep true of the database. */
module Invariants {
  import opened Common
  import opened Products
  import opened Convergence
  import opened Checkpoint
  import opened OrderItems
  import opened Requests

  // ------------------------------------------------------------- the catalogue

  /** The last page the current product operation has finished. */
  function Finished(row: Option<Row>): int {
    if row.Some? then row.value.lastCompletedPage else 0
  }

  /** current_page is the next page, unless the operation is completed. */
  ghost predicate PagesFit(cat: Catalogue, row: Row) {
    && row.lastCompletedPage >= 0
    && (row.status != Completed ==> row.currentPage == row.lastCompletedPage + 1)
    && (row.status == Completed ==> row.currentPage == row.lastCompletedPage >= 1
                                    && |cat.Page(row.lastCompletedPage)| < PAGE_SIZE)
  }

  ghost predicate Leased(row: Row) {
    Named(row.totals) && row.totals.expiresAt.Some?
  }

  function SumField(batches: seq<BatchResult>, key: string): int {
    if batches == [] then 0
    else SumField(batches[..|batches| - 1], key) + Field(batches[|batches| - 1], key)
  }

  /** The six stored totals are the sums over the batches written since the operation started. */
  ghost predicate Ledger(row: Row, batches: seq<BatchResult>) {
    forall key :: key in PRODUCT_KEYS ==> Get(row.totals.counts, key) == SumField(batches, key)
  }

  ghost predicate ProductInv(cat: Catalogue, base: Store, db: Db) {
    && Finished(db.products) >= 0
    && Progress(base, cat, Finished(db.products), 0, db.store)
    && (db.products.Some? ==> PagesFit(cat, db.products.value) && Leased(db.products.value)
                              && Ledger(db.products.value, db.log.batches))
  }

  lemma ClaimKeepsProducts(cat: Catalogue, base: Store, db: Db, op: Option<string>, now: int, uuid: string)
    requires ProductInv(cat, base, db) && uuid != ""
    requires ClaimProducts(db, op, now, uuid).Ok?
    ensures ProductInv(cat, base, ClaimProducts(db, op, now, uuid).value)
    ensures ClaimProducts(db, op, now, uuid).value.products.Some?
  {
    hide Progress;
    var k := Finished(db.products);
    LessProgress(base, cat, k, 0, db.store);
    ClaimHandsOver(db.products, op, now, uuid);
  }

  lemma {:induction false} CountsAdd(counts: map<string, int>, r: BatchResult, n: nat)
    requires n <= |PRODUCT_KEYS|
    ensures forall i :: 0 <= i < |PRODUCT_KEYS| ==>
              Get(AddCounts(counts, r, n), PRODUCT_KEYS[i])
              == Get(counts, PRODUCT_KEYS[i]) + if i < n then Field(r, PRODUCT_KEYS[i]) else 0
  {
    if n > 0 {
      CountsAdd(counts, r, n - 1);
      KeysDiffer();
    }
  }

  lemma KeysDiffer()
    ensures forall i, j :: 0 <= i < j < |PRODUCT_KEYS| ==> PRODUCT_KEYS[i] != PRODUCT_KEYS[j]
  {
    var initials := [PRODUCT_KEYS[0][0], PRODUCT_KEYS[1][0], PRODUCT_KEYS[2][0], PRODUCT_KEYS[3][0],
                     PRODUCT_KEYS[4][0], PRODUCT_KEYS[5][1]];
    assert initials == ['f', 'p', 'c', 'u', 's', 'a'];
    assert PRODUCT_KEYS[0][1] == 'e';
  }

  lemma WriteKeepsLedger(row: Row, batches: seq<BatchResult>, r: BatchResult, now: int)
    requires Ledger(row, batches)
    ensures Ledger(WrittenProducts(row, r, now), batches + [r])
  {
    CountsAdd(row.totals.counts, r, |PRODUCT_KEYS|);
    assert (batches + [r])[..|batches|] == batches;
  }

  lemma WorkKeepsProducts(cat: Catalogue, base: Store, db: Db, pages: nat, w: Weather, now: int)
    requires Clean(cat, base) && ProductInv(cat, base, db)
    requires db.products.Some? && db.products.value.currentPage >= 1
    ensures ProductInv(cat, base, WorkProducts(db, cat, pages, w, now).0)
  {
    hide Progress, Clean, AddCounts, Ledger, RunPages, Balanced;
    var row := db.products.value;
    if row.status != Completed {
      var k := row.lastCompletedPage;
      BatchKeepsProgress(base, cat, k, db.store, PAGE_SIZE, w, pages);
      PagesLaw(db.store, row.currentPage, cat, PAGE_SIZE, w, pages);
      var b := RunPages(StartBatch(db.store, row.currentPage), cat, PAGE_SIZE, w, pages);
      WriteKeepsLedger(row, db.log.batches, ToResult(row.currentPage, b), now);
    }
  }

  /** Completed means done: whatever happened on the way, the product table is the one that a single
      uninterrupted pass over the catalogue leaves. */
  lemma CompletedMeansFullPass(cat: Catalogue, base: Store, db: Db)
    requires Clean(cat, base) && Cut(cat, PAGE_SIZE) && DbInv(cat, base, db)
    requires db.products.Some? && db.products.value.status == Completed
    ensures db.products.value.lastCompletedPage >= |cat.pages|
    ensures db.store.products == Pass(base, cat, db.products.value.lastCompletedPage).products
  {
    FinishedMeansPassed(base, cat, PAGE_SIZE, db.products.value.lastCompletedPage, db.store);
  }

  /** Along the way, every complete item of the finished pages already has its final row. */
  lemma FinishedPagesAreStored(cat: Catalogue, base: Store, db: Db, p: int, i: int)
    requires ProductInv(cat, base, db) && Usable(cat, p, i) && p < Finished(db.products)
    ensures IsNew(base, db.store, Item(cat, p, i))
  {
    assert Before(p, i, Finished(db.products), 0);
  }

  // ---------------------------------------------------------------- the orders

  /** The stored cursor is at or after this order. */
  predicate Passed(row: Row, id: nat) {
    row.totals.cursor.Some? && row.totals.cursor.value.Some? && id <= row.totals.cursor.value.value
  }

  function SumItems(posts: seq<Post>, key: string): int {
    if posts == [] then 0
    else SumItems(posts[..|posts| - 1], key) + ItemField(posts[|posts| - 1].result, key)
  }

  /** The eight stored totals are the sums over the batches that ran since the operation started. */
  ghost predicate ItemLedger(row: Row, posts: seq<Post>) {
    forall key :: key in ITEM_KEYS ==> Get(row.totals.counts, key) == SumItems(posts, key)
  }

  ghost predicate ItemInv(db: Db) {
    && ValidOrders(db.orders)
    && (db.items.Some? ==>
          var row := db.items.value;
          && Leased(row) && ItemLedger(row, db.log.posts)
          && (HasClean(db.log.posts) <==> row.totals.cursor.Some?)
          && (forall id :: id in db.log.started || id in db.log.attempts ==> id in db.orders.lines)
          && (row.status == Completed ==>
                row.totals.lastResult.Some? && !row.totals.lastResult.value.hasMore
                && row.totals.lastResult.value.failed == 0
                && forall id :: id in db.log.started && id !in db.log.skipped ==> Settled(db, id))
          && (row.status != Completed && row.totals.cursor.Some? ==> row.totals.cursor.value.Some?)
          && (!HasClean(db.log.posts) ==> db.log.skipped == {})
          && (forall id :: id in db.log.skipped ==> LeftBehind(db, row, id))
          && (forall id :: id in db.log.started && id !in db.log.skipped && Passed(row, id) ==> Settled(db, id))
          && (forall id :: id in db.log.attempts && !db.log.attempts[id] && id !in db.log.skipped && Passed(row, id)
                ==> HasItems(db.orders, id)))
  }

  /** Not after the cursor the operation started from, passed by the stored one, and never attempted
      with success: such an order is selected no more, and only another writer can settle it. */
  ghost predicate LeftBehind(db: Db, row: Row, id: nat) {
    && id in db.orders.lines && !Beyond(From(db.log.posts), id)
    && (row.status != Completed ==> Passed(row, id))
    && !(id in db.log.attempts && db.log.attempts[id])
  }

  lemma ItemKeysDiffer()
    ensures forall i, j :: 0 <= i < j < |ITEM_KEYS| ==> ITEM_KEYS[i] != ITEM_KEYS[j]
  {
    var initials := seq(8, i requires 0 <= i < 8 => ITEM_KEYS[i][0]);
    assert initials == ['s', 'p', 'o', 'i', 'u', 'd', 'n', 'f'];
    assert forall i :: 0 <= i < 8 ==> initials[i] == ITEM_KEYS[i][0];
  }

  /** Every one of the eight stored totals grows by exactly its own field of the batch result. */
  lemma {:induction false} ItemCountsAdd(counts: map<string, int>, r: ItemsResult, n: nat)
    requires n <= |ITEM_KEYS|
    ensures forall i :: 0 <= i < |ITEM_KEYS| ==>
              Get(ItemCounts(counts, r, n), ITEM_KEYS[i])
              == Get(counts, ITEM_KEYS[i]) + if i < n then ItemField(r, ITEM_KEYS[i]) else 0
  {
    hide ItemField;
    if n > 0 {
      ItemCountsAdd(counts, r, n - 1);
      ItemKeysDiffer();
    }
  }

  lemma WriteKeepsItemLedger(row: Row, posts: seq<Post>, cursor: Option<nat>, r: ItemsResult, now: int)
    requires ItemLedger(row, posts)
    ensures ItemLedger(WrittenItems(row, r, now), posts + [Post(cursor, r)])
  {
    ItemCountsAdd(row.totals.counts, r, |ITEM_KEYS|);
    assert (posts + [Post(cursor, r)])[..|posts|] == posts;
    hide ItemField, ItemCounts;
  }

  /** How one more request moves the recorded start. */
  lemma FromAppend(posts: seq<Post>, cursor: Option<nat>, r: ItemsResult)
    ensures var more := posts + [Post(cursor, r)];
            && (HasClean(more) <==> HasClean(posts) || r.failed == 0)
            && From(more) == if HasClean(posts) then From(posts) else if r.failed == 0 then cursor else None
  {
    var more := posts + [Post(cursor, r)];
    assert more[..|posts|] == posts && more[|posts|] == Post(cursor, r);
    if HasClean(posts) {
      var i :| 0 <= i < |posts| && posts[i].result.failed == 0;
      assert more[i] == posts[i];
    }
  }

  /** The start is the cursor of the first clean request, and no cursor when there has been none. */
  lemma {:induction false} FromIsFirstClean(posts: seq<Post>, i: nat)
    requires i < |posts| && posts[i].result.failed == 0 && forall j :: 0 <= j < i ==> posts[j].result.failed > 0
    ensures From(posts) == posts[i].cursor
  {
    var before := posts[..|posts| - 1];
    if i < |before| {
      FromIsFirstClean(before, i);
      assert before[i].result.failed == 0;
    }
  }

  /** No cursor was posted with a request before or with the first clean one. */
  ghost predicate StartedAtTheTop(posts: seq<Post>) {
    forall i :: 0 <= i < |posts| && !HasClean(posts[..i]) ==> posts[i].cursor.None?
  }

  lemma {:induction false} TopMeansNoStart(posts: seq<Post>)
    requires StartedAtTheTop(posts)
    ensures From(posts) == None
  {
    if posts != [] {
      var n := |posts| - 1;
      forall i | 0 <= i < n && !HasClean(posts[..n][..i]) ensures posts[..n][i].cursor.None? {
        assert posts[..n][..i] == posts[..i];
      }
      TopMeansNoStart(posts[..n]);
    }
  }

  lemma ClaimKeepsItems(db: Db, op: Option<string>, now: int, uuid: string)
    requires ItemInv(db) && uuid != "" && ClaimItems(db, op, now, uuid).Ok?
    ensures ItemInv(ClaimItems(db, op, now, uuid).value) && ClaimItems(db, op, now, uuid).value.items.Some?
  {
    hide ValidOrders;
    ClaimHandsOver(db.items, op, now, uuid);
  }

  lemma SelectedIsPrefix(o: Orders, after: Option<nat>, limit: nat)
    requires limit >= 1
    ensures var raw, ids := FindWithoutItems(o, o.index, after, limit + 1), Selected(o, after, limit);
            && |raw| <= limit + 1
            && (HasMore(o, after, limit) <==> |raw| == limit + 1)
            && raw == if HasMore(o, after, limit) then ids + [raw[limit]] else ids
  {
    hide FindWithoutItems;
    var raw := FindWithoutItems(o, o.index, after, limit + 1);
    if |raw| > limit {
      assert raw == raw[..limit] + [raw[limit]];
    }
  }

  lemma AllButLast(ids: seq<nat>, last: nat)
    requires Ascending(ids + [last])
    ensures Ascending(ids) && (forall k :: k in ids ==> k < last)
    ensures forall k :: k in ids + [last] <==> k in ids || k == last
  {
    forall i | 0 <= i < |ids| ensures ids[i] == (ids + [last])[i] < (ids + [last])[|ids|] {
    }
    assert forall i, j :: 0 <= i < j < |ids| ==> (ids + [last])[i] < (ids + [last])[j];
  }

  /** The selection of a batch: everything wanted is selected, except beyond its last row when more remains. */
  lemma SelectionLaw(o: Orders, after: Option<nat>, limit: nat)
    requires ValidOrders(o) && limit >= 1
    ensures var ids := Selected(o, after, limit);
            && Ascending(ids)
            && (forall id :: id in ids ==> Wanted(o, after, id))
            && (HasMore(o, after, limit) ==> |ids| == limit)
            && (forall id :: Wanted(o, after, id) && id !in ids ==>
                  HasMore(o, after, limit) && forall k :: k in ids ==> k < id)
  {
    QuerySkipsNone(o, o.index, after, limit + 1);
    SelectedIsPrefix(o, after, limit);
    forall id | Wanted(o, after, id) ensures id in o.index {
    }
    hide FindWithoutItems, Selected, HasMore, ValidOrders, Wanted;
    var raw := FindWithoutItems(o, o.index, after, limit + 1);
    var ids := Selected(o, after, limit);
    if HasMore(o, after, limit) {
      AllButLast(ids, raw[limit]);
    }
  }

  lemma SkippedIsNotWanted(o: Orders, after: Option<nat>, limit: nat, id: nat)
    requires ValidOrders(o) && limit >= 1 && id !in Selected(o, after, limit)
    requires var last := LastOf(Selected(o, after, limit));
             !HasMore(o, after, limit) || (last.Some? && id <= last.value)
    ensures !Wanted(o, after, id)
  {
    SelectionLaw(o, after, limit);
    var ids := Selected(o, after, limit);
    if ids != [] {
      assert ids[|ids| - 1] in ids;
    }
  }

  /** An attempt that did not fail settles its order; what was settled before and is not attempted again stays so. */
  lemma RunHandles(s: Work, ids: seq<nat>, remote: Remote, id: nat)
    requires ValidOrders(s.orders) && (forall k :: k in ids ==> k in s.orders.lines)
    requires forall k :: k in s.attempts ==> k in s.orders.lines
    ensures var r := RunOrders(s, ids, remote, |ids|);
            && ValidOrders(r.orders) && Grows(s.orders, r.orders)
            && (forall k :: k in r.attempts ==> k in r.orders.lines)
            && (id !in ids && Handled(s.orders, s.attempts, id) ==> Handled(r.orders, r.attempts, id))
            && (id in ids && r.tally.failed == s.tally.failed ==> id in r.attempts && r.attempts[id])
            && (id !in ids && id in s.orders.lines ==> (HasItems(r.orders, id) <==> HasItems(s.orders, id)))
            && (id !in ids ==> (id in r.attempts <==> id in s.attempts)
                               && (id in s.attempts ==> r.attempts[id] == s.attempts[id]))
  {
    hide ValidOrders, RunOrders;
    RunLaw(s, ids, remote, |ids|);
    assert ids[..|ids|] == ids;
  }

  /** A batch that runs leaves exactly what its loop over the selected orders leaves. */
  lemma WorkRuns(db: Db, cursor: Option<nat>, limit: nat, remote: Remote, now: int)
    requires db.items.Some? && db.items.value.status != Completed
    ensures var (db', r) := WorkItems(db, cursor, limit, remote, now);
            var ids := Selected(db.orders, After(db.items.value.totals, cursor), limit);
            var run := RunOrders(Work(db.orders, NO_ITEMS, db.log.attempts), ids, remote, |ids|);
            db'.orders == run.orders && db'.log.attempts == run.attempts && r.failed == run.tally.failed
  {
    hide RunOrders, WrittenItems, CountWithoutItems, Selected, HasMore;
  }

  ghost predicate BatchEffect(db: Db, db': Db, failed: nat, ids: seq<nat>, id: nat) {
    && ValidOrders(db'.orders) && Grows(db.orders, db'.orders)
    && (forall k :: k in db'.log.attempts ==> k in db'.orders.lines)
    && (id !in ids && Handled(db.orders, db.log.attempts, id) ==> Handled(db'.orders, db'.log.attempts, id))
    && (id in ids && failed == 0 ==> id in db'.log.attempts && db'.log.attempts[id])
    && (id !in ids && id in db.orders.lines ==> (HasItems(db'.orders, id) <==> HasItems(db.orders, id)))
    && (id !in ids ==> (id in db'.log.attempts <==> id in db.log.attempts)
                       && (id in db.log.attempts ==> db'.log.attempts[id] == db.log.attempts[id]))
  }

  lemma SettledAfterwards(db: Db, cursor: Option<nat>, limit: nat, remote: Remote, now: int, id: nat)
    requires ItemInv(db) && db.items.Some? && db.items.value.status != Completed && limit >= 1
    ensures var (db', r) := WorkItems(db, cursor, limit, remote, now);
            BatchEffect(db, db', r.failed, Selected(db.orders, After(db.items.value.totals, cursor), limit), id)
  {
    hide ValidOrders, RunOrders, ItemInv, Grows, WorkItems, Selected, Handled, After, WrittenItems;
    UnpackItems(db);
    WorkRuns(db, cursor, limit, remote, now);
    var ids := Selected(db.orders, After(db.items.value.totals, cursor), limit);
    forall k | k in ids ensures k in db.orders.lines {
      assert Bare(db.orders, k);
    }
    RunHandles(Work(db.orders, NO_ITEMS, db.log.attempts), ids, remote, id);
  }

  lemma UnpackItems(db: Db)
    requires ItemInv(db) && db.items.Some?
    ensures ValidOrders(db.orders)
    ensures forall id :: id in db.log.started || id in db.log.attempts ==> id in db.orders.lines
  {
  }

  /** The cursor a clean batch stores passes only settled orders, but for those left behind. */
  lemma CleanBatchSettles(db: Db, cursor: Option<nat>, limit: nat, remote: Remote, now: int, id: nat)
    requires ItemInv(db) && db.items.Some? && db.items.value.status != Completed && limit >= 1
    requires var (db', r) := WorkItems(db, cursor, limit, remote, now);
             r.failed == 0 && id !in db'.log.skipped && (!r.hasMore || Passed(db'.items.value, id))
    ensures var (db', r) := WorkItems(db, cursor, limit, remote, now);
            && (id in db.log.started ==> Settled(db', id))
            && (id in db'.log.attempts && !db'.log.attempts[id] ==> HasItems(db'.orders, id))
  {
    hide ValidOrders, CountWithoutItems, RunOrders, Grows, Selected, HasMore, From, HasClean, ItemLedger, LeftBehind;
    var row := db.items.value;
    var after := After(row.totals, cursor);
    var ids := Selected(db.orders, after, limit);
    var (db', r) := WorkItems(db, cursor, limit, remote, now);
    SettledAfterwards(db, cursor, limit, remote, now, id);
    SelectionLaw(db.orders, after, limit);
    if id !in ids {
      GrowsKeeps(db.orders, db'.orders, id);
      if Beyond(after, id) {
        SkippedIsNotWanted(db.orders, after, limit, id);
        assert id in db.orders.lines ==> HasItems(db.orders, id);
      } else if row.totals.cursor.Some? {
        assert Passed(row, id);
      } else {
        assert id in db.orders.lines ==> Settled(db, id);
      }
    }
  }

  /** An order left behind stays so, settled exactly if it has items; so does a failing batch's cursor. */
  lemma StaysBehind(db: Db, cursor: Option<nat>, limit: nat, remote: Remote, now: int, id: nat)
    requires ItemInv(db) && db.items.Some? && db.items.value.status != Completed && limit >= 1
    requires id in WorkItems(db, cursor, limit, remote, now).0.log.skipped
    ensures var db' := WorkItems(db, cursor, limit, remote, now).0;
            LeftBehind(db', db'.items.value, id) && (HasItems(db'.orders, id) <==> HasItems(db.orders, id))
  {
    hide ValidOrders, CountWithoutItems, RunOrders, Grows, Selected, HasMore, From, HasClean, ItemLedger;
    var row := db.items.value;
    var after := After(row.totals, cursor);
    var ids := Selected(db.orders, after, limit);
    var (db', r) := WorkItems(db, cursor, limit, remote, now);
    FromAppend(db.log.posts, cursor, r);
    SettledAfterwards(db, cursor, limit, remote, now, id);
    SelectionLaw(db.orders, after, limit);
    assert !Beyond(after, id);
    assert id !in ids;
    GrowsKeeps(db.orders, db'.orders, id);
    if r.failed == 0 && r.hasMore {
      assert ids[|ids| - 1] in ids;
    }
  }

  lemma GrowsKeeps(before: Orders, after: Orders, id: nat)
    requires Grows(before, after)
    ensures HasItems(before, id) ==> HasItems(after, id)
    ensures id in before.lines ==> id in after.lines
  {
  }

  lemma FailedBatchKeepsCursor(db: Db, cursor: Option<nat>, limit: nat, remote: Remote, now: int, id: nat)
    requires ItemInv(db) && db.items.Some? && db.items.value.status != Completed && limit >= 1
    requires var (db', r) := WorkItems(db, cursor, limit, remote, now);
             r.failed > 0 && id !in db'.log.skipped && Passed(db'.items.value, id)
    ensures var (db', r) := WorkItems(db, cursor, limit, remote, now);
            && (id in db.log.started ==> Settled(db', id))
            && (id in db'.log.attempts && !db'.log.attempts[id] ==> HasItems(db'.orders, id))
  {
    hide ValidOrders, CountWithoutItems, RunOrders, Grows, Selected, HasMore, From, HasClean, ItemLedger, LeftBehind;
    var row := db.items.value;
    var after := After(row.totals, cursor);
    var ids := Selected(db.orders, after, limit);
    var (db', r) := WorkItems(db, cursor, limit, remote, now);
    SettledAfterwards(db, cursor, limit, remote, now, id);
    SelectionLaw(db.orders, after, limit);
    GrowsKeeps(db.orders, db'.orders, id);
    assert Passed(row, id) && !Beyond(after, id);
  }

  lemma WorkKeepsItems(db: Db, cursor: Option<nat>, limit: nat, remote: Remote, now: int)
    requires ItemInv(db) && db.items.Some? && limit >= 1
    ensures ItemInv(WorkItems(db, cursor, limit, remote, now).0)
  {
    hide ValidOrders, CountWithoutItems, RunOrders, Grows, Selected, Settled, HasItems, From, HasClean, ItemLedger, ItemCounts,
         LeftBehind, PassedOver;
    if db.items.value.status != Completed {
      var (db', r) := WorkItems(db, cursor, limit, remote, now);
      FromAppend(db.log.posts, cursor, r);
      WriteKeepsItemLedger(db.items.value, db.log.posts, cursor, r, now);
      forall id: nat
        ensures id !in db'.log.skipped && Passed(db'.items.value, id) ==>
                  (id in db.log.started ==> Settled(db', id))
                  && (id in db'.log.attempts && !db'.log.attempts[id] ==> HasItems(db'.orders, id))
        ensures id !in db'.log.skipped && r.failed == 0 && !r.hasMore && id in db.log.started ==> Settled(db', id)
        ensures id in db.log.started ==> id in db'.orders.lines
        ensures id in db'.log.skipped ==> LeftBehind(db', db'.items.value, id)
      {
        SettledAfterwards(db, cursor, limit, remote, now, id);
        GrowsKeeps(db.orders, db'.orders, id);
        if id in db'.log.skipped {
          StaysBehind(db, cursor, limit, remote, now, id);
        } else if r.failed == 0 {
          if !r.hasMore || Passed(db'.items.value, id) { CleanBatchSettles(db, cursor, limit, remote, now, id); }
        } else if Passed(db'.items.value, id) {
          FailedBatchKeepsCursor(db, cursor, limit, remote, now, id);
        }
      }
      SettledAfterwards(db, cursor, limit, remote, now, 0);
      SelectionLaw(db.orders, After(db.items.value.totals, cursor), limit);
    }
  }

  /** With no cursor to start from, nothing is left behind. */
  lemma TopLeavesNothing(db: Db)
    requires ItemInv(db) && db.items.Some? && From(db.log.posts).None?
    ensures db.log.skipped == {}
  {
    hide ValidOrders, ItemLedger, From, HasClean;
    assert forall id :: id in db.log.skipped ==> LeftBehind(db, db.items.value, id);
  }

  /** Exactly which orders a completed operation has settled: those it did not leave behind, and those
      that have items anyway. */
  lemma SettledIff(db: Db, id: nat)
    requires ItemInv(db) && db.items.Some? && id in db.log.started
    requires db.items.value.status == Completed || Passed(db.items.value, id)
    ensures Settled(db, id) <==> id !in db.log.skipped || HasItems(db.orders, id)
  {
    hide ValidOrders, ItemLedger, From, HasClean, Passed;
    if id in db.log.skipped {
      assert LeftBehind(db, db.items.value, id);
    }
  }

  /** For one batch: an unfinished operation without a stored cursor that a clean last batch completes has
      settled all its orders exactly if those at or before the posted cursor were settled before. */
  lemma CleanFinishIff(db: Db, cursor: Option<nat>, limit: nat, remote: Remote, now: int)
    requires ItemInv(db) && db.items.Some? && db.items.value.status != Completed && limit >= 1
    requires db.items.value.totals.cursor.None?
    requires var r := WorkItems(db, cursor, limit, remote, now).1; r.failed == 0 && !r.hasMore
    ensures (forall id :: id in db.log.started ==> Settled(WorkItems(db, cursor, limit, remote, now).0, id))
       <==> (forall id :: id in db.log.started && !Beyond(cursor, id) ==> Settled(db, id))
  {
    hide ValidOrders, ItemLedger, From, Settled, Passed, RunOrders, Selected, HasMore, CountWithoutItems, ItemCounts;
    var db' := WorkItems(db, cursor, limit, remote, now).0;
    WorkKeepsItems(db, cursor, limit, remote, now);
    forall id | id in db.log.started
      ensures Settled(db', id) <==> Beyond(cursor, id) || Settled(db, id)
    {
      SettledIff(db', id);
      if id in db'.log.skipped {
        StaysBehind(db, cursor, limit, remote, now, id);
        assert !Settled(db', id) by { BareIsUnsettled(db, db', id); }
      }
    }
  }

  lemma BareIsUnsettled(db: Db, db': Db, id: nat)
    requires !Settled(db, id) && db'.items.Some? && LeftBehind(db', db'.items.value, id)
    requires HasItems(db'.orders, id) <==> HasItems(db.orders, id)
    ensures !Settled(db', id)
  {
  }

  // --------------------------------------------------- the database as a whole

  ghost predicate DbInv(cat: Catalogue, base: Store, db: Db) {
    ProductInv(cat, base, db) && ItemInv(db)
  }

  lemma ProductStepKeepsDb(cat: Catalogue, base: Store, db: Db, op: Option<string>, at: int, uuid: string)
    requires DbInv(cat, base, db) && uuid != "" && ClaimProducts(db, op, at, uuid).Ok?
    ensures DbInv(cat, base, ClaimProducts(db, op, at, uuid).value)
    ensures ClaimProducts(db, op, at, uuid).value.products.Some?
  {
    hide ProductInv, ValidOrders;
    ClaimKeepsProducts(cat, base, db, op, at, uuid);
  }

  lemma ProductWorkKeepsDb(cat: Catalogue, base: Store, db: Db, pages: nat, w: Weather, now: int)
    requires Clean(cat, base) && DbInv(cat, base, db)
    requires db.products.Some? && db.products.value.currentPage >= 1
    ensures DbInv(cat, base, WorkProducts(db, cat, pages, w, now).0)
  {
    hide ProductInv, ValidOrders, RunPages;
    WorkKeepsProducts(cat, base, db, pages, w, now);
  }

  lemma ItemStepKeepsDb(cat: Catalogue, base: Store, db: Db, op: Option<string>, at: int, uuid: string)
    requires DbInv(cat, base, db) && uuid != "" && ClaimItems(db, op, at, uuid).Ok?
    ensures DbInv(cat, base, ClaimItems(db, op, at, uuid).value)
    ensures ClaimItems(db, op, at, uuid).value.items.Some?
  {
    hide ItemInv, Progress;
    ClaimKeepsItems(db, op, at, uuid);
  }

  lemma ItemWorkKeepsDb(cat: Catalogue, base: Store, db: Db, cursor: Option<nat>, limit: nat, remote: Remote, now: int)
    requires DbInv(cat, base, db) && db.items.Some? && limit >= 1
    ensures DbInv(cat, base, WorkItems(db, cursor, limit, remote, now).0)
  {
    hide ItemInv, Progress, RunOrders, Selected, HasMore, CountWithoutItems;
    WorkKeepsItems(db, cursor, limit, remote, now);
  }

  /** Catalogue items upserted on the way, because an order line named a product not yet stored. */
  function UpsertDetails(s: Store, cat: Catalogue, details: seq<(nat, nat)>): Store
    decreases |details|
  {
    if details == [] then s
    else
      var (p, i) := details[0];
      UpsertDetails(if Valid(cat, p, i) then Upsert(s, Item(cat, p, i), false).0 else s, cat, details[1..])
  }

  lemma {:induction false} DetailsKeepProgress(cat: Catalogue, base: Store, k: nat, s: Store, details: seq<(nat, nat)>)
    requires Clean(cat, base) && Progress(base, cat, k, 0, s)
    ensures Progress(base, cat, k, 0, UpsertDetails(s, cat, details))
    decreases |details|
  {
    hide Progress, Clean, Upsert;
    if details != [] {
      var (p, i) := details[0];
      if Valid(cat, p, i) {
        UpsertKeepsProgress(base, cat, k, 0, s, p, i, false);
      }
      DetailsKeepProgress(cat, base, k, if Valid(cat, p, i) then Upsert(s, Item(cat, p, i), false).0 else s, details[1..]);
    }
  }

  /** Orders and products another guarded writer adds do not disturb either operation. */
  lemma OtherWritesKeepDb(cat: Catalogue, base: Store, db: Db, orders: Orders, details: seq<(nat, nat)>)
    requires Clean(cat, base) && DbInv(cat, base, db)
    requires ValidOrders(orders) && Grows(db.orders, orders)
    ensures DbInv(cat, base, db.(orders := orders, store := UpsertDetails(db.store, cat, details)))
  {
    hide Progress, ValidOrders, HasItems;
    DetailsKeepProgress(cat, base, Finished(db.products), db.store, details);
    forall id ensures HasItems(db.orders, id) ==> HasItems(orders, id)
              ensures id in db.orders.lines ==> id in orders.lines {
      GrowsKeeps(db.orders, orders, id);
    }
  }
}
