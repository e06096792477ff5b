/** The two browser loops, composed with the live service they post to. */
module Browser {
  import opened Common
  import opened Products
  import opened Convergence
  import opened Checkpoint
  import opened OrderItems
  import opened Requests
  import opened Invariants

  datatype Ending = Finished | HttpFailure(error: HttpError) | BatchFailed | NotAdvanced

  /** Nobody else holds an unfinished operation. */
  predicate Claimable(row: Option<Row>, op: string) {
    row.None? || row.value.status == Completed || row.value.totals.operation == Some(op)
  }

  // ------------------------------------------------------------ product batches

  lemma {:induction false} CalmBatchDoesNotFail(base: Store, cat: Catalogue, k: nat, s: Store, size: nat, n: nat)
    requires Clean(cat, base) && Progress(base, cat, k, 0, s) && Priced(base, cat, |cat.pages|)
    ensures RunPages(StartBatch(s, k + 1), cat, size, CALM, n).tally.failed == 0
  {
    hide Progress, Clean, RunItems, Priced;
    if n > 0 {
      PricedPrefix(base, cat, |cat.pages|);
      CalmBatchDoesNotFail(base, cat, k, s, size, n - 1);
      BatchKeepsProgress(base, cat, k, s, size, CALM, n - 1);
      var b := RunPages(StartBatch(s, k + 1), cat, size, CALM, n - 1);
      CalmItemsDoNotFail(base, cat, b.page - 1, b.store, b.tally, |cat.Page(b.page)|);
    }
  }

  /** A batch that neither fails nor reaches the end has passed exactly its n pages, all of them full. */
  lemma {:induction false} BatchAdvances(s: Store, k: nat, cat: Catalogue, size: nat, w: Weather, n: nat)
    requires size > 0
    ensures var b := RunPages(StartBatch(s, k + 1), cat, size, w, n);
            b.tally.failed == 0 && !b.naturalEnd ==> !b.halted && b.page == k + 1 + n && (n > 0 ==> k + n <= |cat.pages|)
  {
    hide RunItems, Balanced;
    PagesLaw(s, k + 1, cat, size, w, n);
    if n > 0 {
      BatchAdvances(s, k, cat, size, w, n - 1);
      PagesLaw(s, k + 1, cat, size, w, n - 1);
    }
  }

  /** Full pages still to come for the next request. */
  ghost function Distance(cat: Catalogue, row: Option<Row>): nat {
    var k := if row.Some? && row.value.status != Completed then row.value.lastCompletedPage else 0;
    if 0 <= k <= |cat.pages| then |cat.pages| - k else 0
  }

  /** One posted product request, as far as the loop can tell. */
  lemma PostedProducts(cat: Catalogue, base: Store, db: Db, op: string, now: int, later: int, uuid: string, w: Weather)
    requires Clean(cat, base) && DbInv(cat, base, db) && op != "" && Claimable(db.products, op)
    ensures ClaimProducts(db, Some(op), now, uuid).Ok?
    ensures var claimed := ClaimProducts(db, Some(op), now, uuid).value;
            claimed.products.Some? && claimed.products.value.currentPage >= 1
            && var (db', r) := WorkProducts(claimed, cat, 5, w, later);
               && DbInv(cat, base, db') && db'.products.Some?
               && db'.products.value.totals.operation == Some(op)
               && (r.hasMore && r.failed == 0 ==>
                     r.nextPage.Some? && r.nextPage.value > r.startPage
                     && Distance(cat, db'.products) < Distance(cat, db.products))
               && (!r.hasMore ==> r.failed == 0 && db'.products.value.status == Completed)
               && (w == CALM && Priced(base, cat, |cat.pages|) ==> r.failed == 0)
               && (Replays(db.products, Some(op)) ==> db' == db && !r.hasMore)
  {
    hide Progress, Clean, RunPages, AddCounts, Ledger, ItemInv, Priced;
    ProductClaim(cat, base, db, op, now, uuid);
    var claimed := ClaimProducts(db, Some(op), now, uuid).value;
    ProductWorkKeepsDb(cat, base, claimed, 5, w, later);
    var row := claimed.products.value;
    if row.status != Completed {
      var k := row.lastCompletedPage;
      BatchAdvances(claimed.store, k, cat, PAGE_SIZE, w, 5);
      PagesLaw(claimed.store, k + 1, cat, PAGE_SIZE, w, 5);
      if w == CALM && Priced(base, cat, |cat.pages|) {
        CalmBatchDoesNotFail(base, cat, k, claimed.store, PAGE_SIZE, 5);
      }
    }
  }

  lemma ProductClaim(cat: Catalogue, base: Store, db: Db, op: string, now: int, uuid: string)
    requires DbInv(cat, base, db) && op != "" && Claimable(db.products, op)
    ensures ClaimProducts(db, Some(op), now, uuid).Ok?
    ensures var claimed := ClaimProducts(db, Some(op), now, uuid).value;
            && DbInv(cat, base, claimed) && claimed.products.Some? && claimed.products.value.currentPage >= 1
            && claimed.products.value.totals.operation == Some(op)
            && (Replays(db.products, Some(op)) ==> claimed == db)
            && (!Replays(db.products, Some(op)) ==> claimed.products.value.status == Running
                                                    && Distance(cat, claimed.products) == Distance(cat, db.products))
  {
    hide Progress, ItemInv, Ledger;
    ClaimRefusal(db.products, Some(op), now, uuid);
    assert Claim(db.products, Some(op), now, uuid) == Claim(db.products, Some(op), now, "x");
    ProductStepKeepsDb(cat, base, db, Some(op), now, "x");
  }

  // --------------------------------------------------------- order-item batches

  /** The cursor the next request of this operation will start after. */
  ghost function Front(row: Option<Row>, op: string, cursor: Option<nat>): Option<nat> {
    if row.None? || Restarts(row, Some(op)) then cursor else After(row.value.totals, cursor)
  }

  /** The orders still ahead of the next request. */
  ghost function Ahead(db: Db, op: string, cursor: Option<nat>): set<nat> {
    set id | id in db.orders.index && Beyond(Front(db.items, op, cursor), id)
  }

  /** The browser's cursor is not ahead of the server's. */
  predicate NotAhead(front: Option<nat>, cursor: Option<nat>) {
    cursor.None? || (front.Some? && cursor.value <= front.value)
  }

  lemma ItemClaim(cat: Catalogue, base: Store, db: Db, op: string, now: int, uuid: string, cursor: Option<nat>)
    requires DbInv(cat, base, db) && op != "" && Claimable(db.items, op)
    ensures ClaimItems(db, Some(op), now, uuid).Ok?
    ensures var claimed := ClaimItems(db, Some(op), now, uuid).value;
            && DbInv(cat, base, claimed) && claimed.items.Some? && claimed.orders == db.orders
            && claimed.items.value.totals.operation == Some(op)
            && (Replays(db.items, Some(op)) ==> claimed == db)
            && (!Replays(db.items, Some(op)) ==> claimed.items.value.status == Running
                                                 && After(claimed.items.value.totals, cursor) == Front(db.items, op, cursor))
  {
    hide Progress, ProductInv, ValidOrders;
    ClaimRefusal(db.items, Some(op), now, uuid);
    assert Claim(db.items, Some(op), now, uuid) == Claim(db.items, Some(op), now, "x");
    ItemStepKeepsDb(cat, base, db, Some(op), now, "x");
  }

  /** What one request does to the record of its operation. */
  ghost predicate LogMoves(db: Db, db': Db, op: string, cursor: Option<nat>, failed: nat) {
    && (Restarts(db.items, Some(op)) && failed == 0 ==>
          From(db'.log.posts) == cursor && forall id :: Bare(db.orders, id) ==> id in db'.log.started)
    && (!Restarts(db.items, Some(op)) ==>
          db'.log.started == db.log.started && (HasClean(db.log.posts) ==> From(db'.log.posts) == From(db.log.posts)))
    && (failed == 0 && !Replays(db.items, Some(op)) ==> HasClean(db'.log.posts))
    && !Restarts(db'.items, Some(op))
  }

  /** A new operation that has had a clean batch, the first one posted without a cursor. */
  ghost predicate StartedAnew(db: Db, op: string, orders: Orders) {
    && From(db.log.posts).None? && HasClean(db.log.posts) && !Restarts(db.items, Some(op))
    && forall id :: Bare(orders, id) ==> id in db.log.started
  }

  lemma StaysAnew(db: Db, db': Db, op: string, cursor: Option<nat>, orders: Orders)
    requires LogMoves(db, db', op, cursor, 0) && !Replays(db.items, Some(op))
    requires (Restarts(db.items, Some(op)) && cursor.None? && db.orders == orders) || StartedAnew(db, op, orders)
    ensures StartedAnew(db', op, orders)
  {
    hide From, HasClean;
  }

  lemma RequestMovesLog(db: Db, op: string, now: int, later: int, uuid: string, cursor: Option<nat>, remote: Remote)
    requires op != "" && ClaimItems(db, Some(op), now, uuid).Ok?
    requires var claimed := ClaimItems(db, Some(op), now, uuid).value;
             claimed.items.Some? && claimed.items.value.totals.operation == Some(op)
             && (!Replays(db.items, Some(op)) ==> claimed.items.value.status == Running)
             && (Replays(db.items, Some(op)) ==> claimed == db && claimed.items.value.totals.lastResult.Some?)
    ensures var (db', r) := WorkItems(ClaimItems(db, Some(op), now, uuid).value, cursor, 100, remote, later);
            LogMoves(db, db', op, cursor, r.failed)
  {
    hide RunOrders, Selected, HasMore, CountWithoutItems, ItemCounts, From, HasClean, Claim;
    var claimed := ClaimItems(db, Some(op), now, uuid).value;
    var (db', r) := WorkItems(claimed, cursor, 100, remote, later);
    if !Replays(db.items, Some(op)) {
      FromAppend(claimed.log.posts, cursor, r);
      assert db'.log.posts == claimed.log.posts + [Post(cursor, r)];
      NoPosts();
    }
  }

  lemma NoPosts()
    ensures !HasClean([]) && From([]) == None
  {
  }

  /** What the loop can tell of one request: the database after it and the answer. */
  ghost predicate ItemsPosted(cat: Catalogue, base: Store, db: Db, op: string, cursor: Option<nat>, remote: Remote,
                              db': Db, r: ItemsResult)
  {
    && DbInv(cat, base, db') && db'.items.Some? && db'.items.value.totals.operation == Some(op)
    && (r.hasMore && r.failed == 0 ==>
          r.nextCursor.Some? && r.nextCursor != cursor
          && Front(db'.items, op, r.nextCursor) == r.nextCursor
          && Ahead(db', op, r.nextCursor) < Ahead(db, op, cursor))
    && (!r.hasMore && r.failed == 0 ==> db'.items.value.status == Completed)
    && (r.failed > 0 ==> Front(db'.items, op, cursor) == Front(db.items, op, cursor))
    && (Friendly(remote) ==> r.failed == 0)
    && LogMoves(db, db', op, cursor, r.failed) && (r.hasMore ==> !Replays(db'.items, Some(op)))
    && (Replays(db.items, Some(op)) ==> db' == db && !r.hasMore && r.failed == 0)
  }

  /** Every posted order-items request of the current owner is granted and moves on. */
  lemma PostedItems(cat: Catalogue, base: Store, db: Db, op: string, now: int, later: int, uuid: string,
                    cursor: Option<nat>, remote: Remote)
    requires DbInv(cat, base, db) && op != "" && Claimable(db.items, op)
    requires Replays(db.items, Some(op)) || NotAhead(Front(db.items, op, cursor), cursor)
    ensures ClaimItems(db, Some(op), now, uuid).Ok?
    ensures var claimed := ClaimItems(db, Some(op), now, uuid).value;
            claimed.items.Some?
            && var (db', r) := WorkItems(claimed, cursor, 100, remote, later);
               ItemsPosted(cat, base, db, op, cursor, remote, db', r)
  {
    hide Progress, ProductInv, ValidOrders, RunOrders, CountWithoutItems, ItemCounts, Selected, HasMore, Claim, LogMoves,
         From, HasClean, ItemLedger;
    ItemClaim(cat, base, db, op, now, uuid, cursor);
    RequestMovesLog(db, op, now, later, uuid, cursor, remote);
    var claimed := ClaimItems(db, Some(op), now, uuid).value;
    ItemWorkKeepsDb(cat, base, claimed, cursor, 100, remote, later);
    if !Replays(db.items, Some(op)) {
      var front := Front(db.items, op, cursor);
      var (db', r) := WorkItems(claimed, cursor, 100, remote, later);
      SelectionLaw(db.orders, front, 100);
      if Friendly(remote) { FriendlyBatchDoesNotFail(claimed, cursor, 100, remote, later); }
      var ids := Selected(db.orders, front, 100);
      if r.hasMore && r.failed == 0 {
        var last := ids[|ids| - 1];
        assert last in ids && Wanted(db.orders, front, last);
        BareIsIndexed(db.orders, last);
        assert db'.orders.index == db.orders.index;
        assert last in Ahead(db, op, cursor) && last !in Ahead(db', op, r.nextCursor);
      }
    }
  }

  lemma FriendlyBatchDoesNotFail(db: Db, cursor: Option<nat>, limit: nat, remote: Remote, now: int)
    requires ValidOrders(db.orders) && db.items.Some? && db.items.value.status != Completed && limit >= 1
    requires Friendly(remote)
    ensures WorkItems(db, cursor, limit, remote, now).1.failed == 0
  {
    hide ValidOrders, RunOrders, Selected, Friendly, WorkItems;
    WorkRuns(db, cursor, limit, remote, now);
    var after := After(db.items.value.totals, cursor);
    var ids := Selected(db.orders, after, limit);
    SelectionLaw(db.orders, after, limit);
    FriendlyRunDoesNotFail(Work(db.orders, NO_ITEMS, db.log.attempts), ids, remote, |ids|);
  }

  lemma BareIsIndexed(o: Orders, id: nat)
    requires ValidOrders(o) && Bare(o, id)
    ensures id in o.index
  {
  }

  class Tab {
    var productOperation: Option<string>
    var itemOperation: Option<string>
    var itemCursor: Option<nat>

    /** runProductBatches: post until nothing is left. `w` is what goes wrong during every request;
        unless `alone`, any request may find the guard taken. */
    method RunProductBatches(service: BlingSyncService, uuid: string, cat: Catalogue, w: Weather, alone: bool,
                             ghost base: Store)
      returns (end: Ending)
      requires uuid != "" && productOperation != Some("")
      requires Clean(cat, base) && DbInv(cat, base, service.View())
      requires Claimable(service.View().products, if productOperation.Some? then productOperation.value else uuid)
      requires {this as object, service} !! {service.repo as object, service.session, service.table}
      requires this as object != service
      modifies this`productOperation, service`log, service.repo, service.session
      ensures DbInv(cat, base, service.View())
      ensures end != NotAdvanced && (end.HttpFailure? ==> end.error == GuardBusy && !alone)
      ensures w == CALM && alone && Priced(base, cat, |cat.pages|) ==> end == Finished
      ensures end == Finished ==> productOperation == None && service.View().products.Some?
                                  && service.View().products.value.status == Completed
      ensures end == Finished && Cut(cat, 100) ==>
                service.View().store.products
                == Pass(base, cat, service.View().products.value.lastCompletedPage).products
      ensures end != Finished ==> productOperation.Some? && Claimable(service.View().products, productOperation.value)
      ensures old(productOperation.Some? && Replays(service.View().products, productOperation)) ==>
                (end == Finished || end == HttpFailure(GuardBusy)) && service.View() == old(service.View())
    {
      hide DbInv, Clean, Priced, WorkProducts, ClaimProducts;
      var operation := if productOperation.Some? then productOperation.value else uuid;
      productOperation := Some(operation);
      ghost var replay := Replays(service.View().products, Some(operation));
      var more := true;
      while more
        invariant productOperation == Some(operation)
        invariant DbInv(cat, base, service.View())
        invariant Claimable(service.View().products, operation)
        invariant !more ==> service.View().products.Some? && service.View().products.value.status == Completed
        invariant replay ==> service.View() == old(service.View())
        decreases more, Distance(cat, service.View().products)
      {
        var now: int, later: int, free: bool := *, *, *;
        service.repo.holdsGuard := false;
        ghost var db := service.View();
        DbIsKeyed(cat, base, db);
        PostedProducts(cat, base, db, operation, now, later, uuid, w);
        var res := service.SyncProductRequest(Some(operation), now, later, uuid, alone || free, cat, 5, w);
        if res.Err? { return HttpFailure(res.error); }
        var result := res.value;
        if result.failed > 0 { return BatchFailed; }
        if result.hasMore && (result.nextPage.None? || result.nextPage.value <= result.startPage) {
          return NotAdvanced;
        }
        more := result.hasMore;
      }
      productOperation := None;
      end := Finished;
      if Cut(cat, PAGE_SIZE) { CompletedMeansFullPass(cat, base, service.View()); }
    }

    /** One fetch of the order-items endpoint. */
    method PostItems(service: BlingSyncService, op: string, uuid: string, cursor: Option<nat>, remote: Remote, free: bool,
                     ghost cat: Catalogue, ghost base: Store)
      returns (res: Result<ItemsResult, HttpError>)
      requires op != "" && DbInv(cat, base, service.View()) && Claimable(service.View().items, op)
      requires Replays(service.View().items, Some(op)) || NotAhead(Front(service.View().items, op, cursor), cursor)
      requires {this as object} !! {service, service.repo as object, service.session, service.table}
      modifies service`log, service.repo, service.table
      ensures res.Err? ==> res.error == GuardBusy && !free && service.View() == old(service.View())
      ensures res.Ok? ==> ItemsPosted(cat, base, old(service.View()), op, cursor, remote, service.View(), res.value)
    {
      hide DbInv, WorkItems, ClaimItems, ItemsPosted, Claimable, NotAhead, Front;
      var now: int, later: int := *, *;
      service.repo.holdsGuard := false;
      PostedItems(cat, base, service.View(), op, now, later, uuid, cursor, remote);
      res := service.BackfillOrderItemRequest(Some(op), now, later, uuid, free, cursor, 100, remote);
    }

    /** runOrderItemBatches: post until nothing is left, keeping the last cursor in the tab. */
    method RunOrderItemBatches(service: BlingSyncService, uuid: string, remote: Remote, alone: bool,
                               ghost cat: Catalogue, ghost base: Store)
      returns (end: Ending)
      requires uuid != "" && itemOperation != Some("")
      requires DbInv(cat, base, service.View())
      requires var op := if itemOperation.Some? then itemOperation.value else uuid;
               Claimable(service.View().items, op)
               && (Replays(service.View().items, Some(op)) || NotAhead(Front(service.View().items, op, itemCursor), itemCursor))
      requires {this as object, service} !! {service.repo as object, service.session, service.table}
      requires this as object != service
      modifies this`itemOperation, this`itemCursor, service`log, service.repo, service.table
      ensures DbInv(cat, base, service.View())
      ensures end != NotAdvanced && (end.HttpFailure? ==> end.error == GuardBusy && !alone)
      ensures Friendly(remote) && alone ==> end == Finished
      ensures end == Finished ==>
                itemOperation == None && itemCursor == None && service.View().items.Some?
                && service.View().items.value.status == Completed
                && forall id :: id in service.View().log.started
                                ==> (Settled(service.View(), id) <==>
                                       id !in service.View().log.skipped || HasItems(service.View().orders, id))
      ensures end == Finished && old(itemCursor).None?
              && Restarts(old(service.View().items), Some(old(if itemOperation.Some? then itemOperation.value else uuid))) ==>
                forall id :: Bare(old(service.View().orders), id) ==> Settled(service.View(), id)
      ensures end == BatchFailed || end.HttpFailure? ==>
                itemOperation.Some? && Claimable(service.View().items, itemOperation.value)
                && (Replays(service.View().items, itemOperation)
                    || NotAhead(Front(service.View().items, itemOperation.value, itemCursor), itemCursor))
      ensures old(itemOperation.Some? && Replays(service.View().items, itemOperation)) ==>
                (end == Finished || end == HttpFailure(GuardBusy)) && service.View() == old(service.View())
    {
      hide DbInv, WorkItems, ClaimItems, Friendly, From, HasClean, Settled, StartedAnew, LogMoves, Restarts, Replays, Front,
           Beyond;
      var operation := if itemOperation.Some? then itemOperation.value else uuid;
      itemOperation := Some(operation);
      ghost var replay := Replays(service.View().items, Some(operation));
      ghost var anew := itemCursor.None? && Restarts(service.View().items, Some(operation));
      ghost var posted := false;
      NewIsNoReplay(service.View().items, operation);
      var cursor := itemCursor;
      var more := true;
      while more
        invariant itemOperation == Some(operation)
        invariant DbInv(cat, base, service.View())
        invariant Claimable(service.View().items, operation)
        invariant more ==> itemCursor == cursor
        invariant more && !replay ==> NotAhead(Front(service.View().items, operation, cursor), cursor)
        invariant !more ==> service.View().items.Some? && service.View().items.value.status == Completed
        invariant replay ==> service.View() == old(service.View())
        invariant !posted ==> more && cursor == old(itemCursor) && service.View() == old(service.View())
        invariant posted && anew && more ==> StartedAnew(service.View(), operation, old(service.View().orders))
        invariant anew && more ==> !Replays(service.View().items, Some(operation))
        invariant anew && !more ==> StartedAnew(service.View(), operation, old(service.View().orders))
        decreases more, Ahead(service.View(), operation, cursor)
      {
        var free: bool := *;
        ghost var db := service.View();
        var res := PostItems(service, operation, uuid, cursor, remote, alone || free, cat, base);
        if res.Err? { return HttpFailure(res.error); }
        var result := res.value;
        if result.failed > 0 { return BatchFailed; }
        if anew { StaysAnew(db, service.View(), operation, cursor, old(service.View().orders)); }
        posted := true;
        if result.hasMore && (result.nextCursor.None? || result.nextCursor == cursor) { return NotAdvanced; }
        cursor := result.nextCursor;
        if cursor.Some? { itemCursor := cursor; }
        more := result.hasMore;
      }
      itemCursor := None;
      itemOperation := None;
      end := Finished;
      CompletedSettles(cat, base, service.View());
      if anew { AnewSettlesAll(cat, base, service.View(), operation, old(service.View().orders)); }
    }
  }

  lemma NewIsNoReplay(row: Option<Row>, op: string)
    ensures Restarts(row, Some(op)) ==> !Replays(row, Some(op))
  {
  }

  lemma AnewSettlesAll(cat: Catalogue, base: Store, db: Db, op: string, orders: Orders)
    requires DbInv(cat, base, db) && db.items.Some? && db.items.value.status == Completed && StartedAnew(db, op, orders)
    ensures forall id :: Bare(orders, id) ==> Settled(db, id)
  {
    hide ProductInv, ItemInv, From, HasClean, Settled, Bare;
    TopLeavesNothing(db);
    forall id | Bare(orders, id) ensures Settled(db, id) {
      SettledIff(db, id);
    }
  }

  lemma CompletedSettles(cat: Catalogue, base: Store, db: Db)
    requires DbInv(cat, base, db) && db.items.Some? && db.items.value.status == Completed
    ensures forall id :: id in db.log.started ==> (Settled(db, id) <==> id !in db.log.skipped || HasItems(db.orders, id))
  {
    hide ProductInv, ItemInv, Settled, HasItems;
    forall id | id in db.log.started ensures Settled(db, id) <==> id !in db.log.skipped || HasItems(db.orders, id) {
      SettledIff(db, id);
    }
  }

  lemma DbIsKeyed(cat: Catalogue, base: Store, db: Db)
    requires DbInv(cat, base, db)
    ensures Keyed(db.store.products)
    ensures db.products.Some? ==> db.products.value.currentPage >= 1
  {
  }
}
