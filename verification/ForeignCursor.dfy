/** Cursors that do not belong to the operation they are posted with: the orders they leave behind, and
    the loop they stop. */
module ForeignCursor {
  import opened Common
  import opened Products
  import opened Convergence
  import opened Checkpoint
  import opened OrderItems
  import opened Requests
  import opened Invariants
  import opened Protocol
  import Browser

  // ------------------------------------------------------------ what is left behind

  /** A first clean batch that starts after a posted cursor leaves behind, unsettled, every order at or
      before it that was unsettled: for every table, every remote and every limit. */
  lemma CursorLeavesBehind(db: Db, cursor: Option<nat>, limit: nat, remote: Remote, now: int, k: nat)
    requires ItemInv(db) && db.items.Some? && db.items.value.status != Completed && limit >= 1
    requires db.items.value.totals.cursor.None? && WorkItems(db, cursor, limit, remote, now).1.failed == 0
    requires k in db.orders.lines && !Beyond(cursor, k) && !Settled(db, k)
    ensures var db' := WorkItems(db, cursor, limit, remote, now).0;
            k in db'.log.skipped && !Settled(db', k) && db'.log.started == db.log.started
  {
    hide ValidOrders, ItemLedger, From, HasClean, Settled, RunOrders, Selected, HasMore, CountWithoutItems, ItemCounts;
    assert k in WorkItems(db, cursor, limit, remote, now).0.log.skipped;
    StaysBehind(db, cursor, limit, remote, now, k);
    BareIsUnsettled(db, WorkItems(db, cursor, limit, remote, now).0, k);
  }

  /** Later batches of the operation leave it there. */
  lemma LaterBatchesLeaveIt(db: Db, cursor: Option<nat>, limit: nat, remote: Remote, now: int, k: nat)
    requires ItemInv(db) && db.items.Some? && db.items.value.status != Completed && limit >= 1
    requires db.items.value.totals.cursor.Some? && k in db.log.skipped && !Settled(db, k)
    ensures var db' := WorkItems(db, cursor, limit, remote, now).0;
            k in db'.log.skipped && !Settled(db', k) && db'.log.started == db.log.started
  {
    hide ValidOrders, ItemLedger, From, HasClean, Settled, RunOrders, Selected, HasMore, CountWithoutItems, ItemCounts;
    StaysBehind(db, cursor, limit, remote, now, k);
    BareIsUnsettled(db, WorkItems(db, cursor, limit, remote, now).0, k);
  }

  // -------------------------------------------------------- a run from any table

  const ALL_MISSING := Remote(map[], {})

  function AllRaising(o: Orders): Remote {
    Remote(map id | id in o.lines :: FetchRaises, {})
  }

  lemma RaisingStep(s: Work, id: nat, remote: Remote)
    requires id in s.orders.lines && remote.Of(id) == FetchRaises
    ensures OrderStep(s, id, remote) == Work(s.orders, s.tally.(failed := s.tally.failed + 1), s.attempts[id := false])
  {
    assert s.orders.lines[id := s.orders.lines[id]] == s.orders.lines;
  }

  lemma {:induction false} RaisingRun(s: Work, ids: seq<nat>, remote: Remote, n: nat)
    requires n <= |ids| && (forall id :: id in ids ==> id in s.orders.lines) && forall id :: id in ids ==> remote.Of(id) == FetchRaises
    ensures var r := RunOrders(s, ids, remote, n);
            && r.orders == s.orders && r.tally.failed == s.tally.failed + n
            && forall id :: id in r.attempts && r.attempts[id] ==> id in s.attempts && s.attempts[id]
  {
    hide OrderStep;
    if n > 0 {
      RaisingRun(s, ids, remote, n - 1);
      RaisingStep(RunOrders(s, ids, remote, n - 1), ids[n - 1], remote);
    }
  }

  /** A batch in which every fetch raises settles nothing and stores no cursor. */
  lemma RaisingBatch(db: Db, now: int, k: nat)
    requires ItemInv(db) && db.items.Some? && db.items.value.status != Completed && Bare(db.orders, k)
    requires db.items.value.totals.cursor.None? && db.log.attempts == map[]
    ensures var db' := WorkItems(db, None, 100, AllRaising(db.orders), now).0;
            && db'.orders == db.orders && db'.log.started == db.log.started && !Settled(db', k)
            && db'.items.Some? && db'.items.value.status == Failed && db'.items.value.totals.cursor.None?
            && db'.items.value.totals.operation == db.items.value.totals.operation
            && db'.items.value.totals.expiresAt == Some(now + LEASE_SECONDS)
  {
    hide ValidOrders, ItemLedger, From, HasClean, RunOrders, Selected, HasMore, CountWithoutItems, ItemCounts, AllRaising;
    var ids := Selected(db.orders, None, 100);
    SelectionLaw(db.orders, None, 100);
    assert Wanted(db.orders, None, k);
    assert |ids| > 0;
    AllRaise(db.orders, ids);
    RaisingRun(Work(db.orders, NO_ITEMS, db.log.attempts), ids, AllRaising(db.orders), |ids|);
    WorkRuns(db, None, 100, AllRaising(db.orders), now);
  }

  lemma AllRaise(o: Orders, ids: seq<nat>)
    requires forall id :: id in ids ==> Bare(o, id)
    ensures forall id :: id in ids ==> AllRaising(o).Of(id) == FetchRaises && id in o.lines
  {
  }

  lemma MissingIsFriendly()
    ensures Friendly(ALL_MISSING)
  {
  }

  /** The owner's requests, posted one after the other to a remote that knows no order, complete the
      operation, and what it left behind stays unsettled. */
  lemma {:induction false} RequestsFinish(w: World, cat: Catalogue, base: Store, n: nat, k: nat) returns (run: seq<Action>)
    requires Clean(cat, base) && DbInv(cat, base, w.db) && Quiet(w) && forall id :: id in w.requests ==> |id| <= n
    requires var row := w.db.items;
             row.Some? && row.value.status != Completed && row.value.totals.operation == Some("A")
             && row.value.totals.cursor.Some?
    requires k in w.db.log.skipped && k in w.db.log.started && !Settled(w.db, k)
    ensures var db := Run(w, run, cat).db;
            db.items.Some? && db.items.value.status == Completed && k in db.log.started && !Settled(db, k)
    decreases Browser.Ahead(w.db, "A", None)
  {
    hide Clean, ProductInv, ItemInv, ValidOrders, WorkItems, ClaimItems, Run, Next, ItemRequest, Settled, Name, Friendly,
         Browser.Ahead, Browser.ItemsPosted;
    Browser.PostedItems(cat, base, w.db, "A", w.now, w.now, "uuid", None, ALL_MISSING);
    OwnersTurn(w.db, cat, base, w.now, k);
    LongName(n);
    run := ItemRequest(Name(n + 1), "A", None, ALL_MISSING);
    OneItemRequest(w, cat, Name(n + 1), "A", None, ALL_MISSING);
    var w1 := Run(w, run, cat);
    if w1.db.items.value.status != Completed {
      var more := RequestsFinish(w1, cat, base, n + 1, k);
      RunAppend(w, run, more, cat);
      run := run + more;
    }
  }

  /** One such request: it completes the operation or comes closer to the end. */
  lemma OwnersTurn(db: Db, cat: Catalogue, base: Store, now: int, k: nat)
    requires Clean(cat, base) && DbInv(cat, base, db) && db.items.Some? && db.items.value.status != Completed
    requires db.items.value.totals.operation == Some("A") && db.items.value.totals.cursor.Some?
    requires k in db.log.skipped && !Settled(db, k)
    ensures ClaimItems(db, Some("A"), now, "uuid").Ok? && ClaimItems(db, Some("A"), now, "uuid").value.items.Some?
    ensures var db' := WorkItems(ClaimItems(db, Some("A"), now, "uuid").value, None, 100, ALL_MISSING, now).0;
            && DbInv(cat, base, db') && db'.items.Some? && db'.items.value.totals.operation == Some("A")
            && db'.items.value.totals.cursor.Some?
            && k in db'.log.skipped && !Settled(db', k) && db'.log.started == db.log.started
            && (db'.items.value.status != Completed ==> Browser.Ahead(db', "A", None) < Browser.Ahead(db, "A", None))
  {
    hide ProductInv, ItemInv, ValidOrders, WorkItems, Settled, Friendly, Browser.Ahead, Clean;
    Browser.PostedItems(cat, base, db, "A", now, now, "uuid", None, ALL_MISSING);
    OwnerContinues(db, cat, base, now);
    var claimed := ClaimItems(db, Some("A"), now, "uuid").value;
    var (db', r) := WorkItems(claimed, None, 100, ALL_MISSING, now);
    SameSettled(db, claimed, k);
    LaterBatchesLeaveIt(claimed, None, 100, ALL_MISSING, now, k);
    MissingIsFriendly();
    CleanStores(claimed, None, ALL_MISSING, now);
    if db'.items.value.status != Completed {
      AheadIgnoresPost(db', r.nextCursor);
    }
  }

  lemma SameSettled(db: Db, claimed: Db, k: nat)
    requires claimed.orders == db.orders && claimed.log == db.log
    ensures Settled(claimed, k) <==> Settled(db, k)
  {
  }

  lemma OwnerContinues(db: Db, cat: Catalogue, base: Store, now: int)
    requires DbInv(cat, base, db) && db.items.Some? && db.items.value.status != Completed
    requires db.items.value.totals.operation == Some("A")
    ensures var c := ClaimItems(db, Some("A"), now, "uuid");
            && c.Ok? && c.value.items.Some? && c.value.orders == db.orders && c.value.log == db.log
            && c.value.items.value.status == Running && c.value.items.value.totals.cursor == db.items.value.totals.cursor
            && DbInv(cat, base, c.value)
  {
    ClaimRefusal(db.items, Some("A"), now, "uuid");
    ItemStepKeepsDb(cat, base, db, Some("A"), now, "uuid");
    hide DbInv;
    ClaimHandsOver(db.items, Some("A"), now, "uuid");
  }

  lemma CleanStores(db: Db, cursor: Option<nat>, remote: Remote, now: int)
    requires db.items.Some? && db.items.value.status != Completed
    ensures var (db', r) := WorkItems(db, cursor, 100, remote, now);
            db'.items.Some? && db'.items.value.totals.operation == db.items.value.totals.operation
            && (r.failed == 0 ==> db'.items.value.totals.cursor == Some(r.nextCursor)
                                  && (db'.items.value.status == Completed <==> !r.hasMore))
  {
    hide RunOrders, Selected, HasMore, CountWithoutItems, ItemCounts;
  }

  /** Once a cursor is stored, what the browser posts does not matter. */
  lemma AheadIgnoresPost(db: Db, cursor: Option<nat>)
    requires db.items.Some? && db.items.value.totals.cursor.Some? && db.items.value.status != Completed
    ensures Browser.Ahead(db, "A", None) == Browser.Ahead(db, "A", cursor)
  {
  }

  /** From every installation without checkpoints, whatever its orders: for every order without items and
      every cursor at or after it there is a run that completes the operation and leaves that order
      unsettled. B's first batch meets a remote that is down; A takes the expired operation over and posts
      the cursor. */
  lemma ForeignCursorSkipsOrders(w: World, cat: Catalogue, base: Store, k: nat, c: nat) returns (run: seq<Action>)
    requires Clean(cat, base) && Initial(w, base) && Bare(w.db.orders, k) && k <= c
    ensures var db := Run(w, run, cat).db;
            db.items.Some? && db.items.value.status == Completed && k in db.log.started && !Settled(db, k)
  {
    hide Clean, Run, Initial, Quiet, Settled;
    var wait := WaitForLock(w, cat, base);
    var w0 := Run(w, [Tick(wait)], cat);
    var rest := SkipsOrders(w0, cat, base, k, c);
    RunAppend(w, [Tick(wait)], rest, cat);
    run := [Tick(wait)] + rest;
  }

  lemma SkipsOrders(w: World, cat: Catalogue, base: Store, k: nat, c: nat) returns (run: seq<Action>)
    requires Clean(cat, base) && Initial(w, base) && Quiet(w) && Bare(w.db.orders, k) && k <= c
    ensures var db := Run(w, run, cat).db;
            db.items.Some? && db.items.value.status == Completed && k in db.log.started && !Settled(db, k)
  {
    hide Clean, ProductInv, ItemInv, ValidOrders, WorkItems, ClaimItems, Run, Next, ItemRequest, Settled, Friendly, AllRaising;
    InitialDb(w, cat, base);
    var remote := AllRaising(w.db.orders);
    StartingBatch(w.db, cat, base, w.now, k);
    var r1 := ItemRequest("b", "B", None, remote);
    OneItemRequest(w, cat, "b", "B", None, remote);
    var w1 := Run(w, r1, cat);
    WaitTen(w1, cat);
    var w2 := Run(w1, [Tick(600)], cat);
    TakeoverBatch(w2.db, cat, base, w2.now, k, c);
    var r2 := ItemRequest("a", "A", Some(c), ALL_MISSING);
    OneItemRequest(w2, cat, "a", "A", Some(c), ALL_MISSING);
    var w3 := Run(w2, r2, cat);
    RunAppend(w, r1, [Tick(600)], cat);
    RunAppend(w, r1 + [Tick(600)], r2, cat);
    run := r1 + [Tick(600)] + r2;
    if w3.db.items.value.status != Completed {
      var more := RequestsFinish(w3, cat, base, 1, k);
      RunAppend(w, run, more, cat);
      run := run + more;
    }
  }

  lemma InitialDb(w: World, cat: Catalogue, base: Store)
    requires Clean(cat, base) && Initial(w, base)
    ensures DbInv(cat, base, w.db)
  {
    hide Clean, DbInv;
    InitialIsSafe(w, cat, base);
  }

  lemma WaitTen(w: World, cat: Catalogue)
    ensures Run(w, [Tick(600)], cat) == w.(now := w.now + 600)
  {
    RunOne(w, Tick(600), cat);
  }

  /** B's request. */
  lemma StartingBatch(db: Db, cat: Catalogue, base: Store, now: int, k: nat)
    requires DbInv(cat, base, db) && db.items.None? && Bare(db.orders, k)
    ensures ClaimItems(db, Some("B"), now, "uuid").Ok? && ClaimItems(db, Some("B"), now, "uuid").value.items.Some?
    ensures var db' := WorkItems(ClaimItems(db, Some("B"), now, "uuid").value, None, 100, AllRaising(db.orders), now).0;
            && DbInv(cat, base, db') && db'.orders == db.orders && k in db'.log.started && !Settled(db', k)
            && db'.items.Some? && db'.items.value.status == Failed && db'.items.value.totals.cursor.None?
            && db'.items.value.totals.operation == Some("B") && db'.items.value.totals.expiresAt == Some(now + LEASE_SECONDS)
  {
    hide ProductInv, WorkItems, Settled, ValidOrders, AllRaising;
    var claimed := ClaimItems(db, Some("B"), now, "uuid").value;
    ItemStepKeepsDb(cat, base, db, Some("B"), now, "uuid");
    hide ItemInv;
    RaisingBatch(claimed, now, k);
    ItemWorkKeepsDb(cat, base, claimed, None, 100, AllRaising(db.orders), now);
  }

  /** A's first request, ten minutes later. */
  lemma TakeoverBatch(db: Db, cat: Catalogue, base: Store, now: int, k: nat, c: nat)
    requires DbInv(cat, base, db) && db.items.Some? && db.items.value.status == Failed
    requires db.items.value.totals.cursor.None? && db.items.value.totals.expiresAt == Some(now)
    requires k in db.log.started && !Settled(db, k) && k <= c && k in db.orders.lines
    ensures ClaimItems(db, Some("A"), now, "uuid").Ok? && ClaimItems(db, Some("A"), now, "uuid").value.items.Some?
    ensures var db' := WorkItems(ClaimItems(db, Some("A"), now, "uuid").value, Some(c), 100, ALL_MISSING, now).0;
            && DbInv(cat, base, db') && k in db'.log.started && k in db'.log.skipped && !Settled(db', k)
            && db'.items.Some? && db'.items.value.totals.operation == Some("A") && db'.items.value.totals.cursor.Some?
  {
    hide ProductInv, ItemInv, WorkItems, Settled, ValidOrders, Friendly;
    ClaimRefusal(db.items, Some("A"), now, "uuid");
    ItemStepKeepsDb(cat, base, db, Some("A"), now, "uuid");
    ClaimHandsOver(db.items, Some("A"), now, "uuid");
    var claimed := ClaimItems(db, Some("A"), now, "uuid").value;
    assert claimed.log == db.log && claimed.orders == db.orders && claimed.items.value.status == Running;
    hide ClaimItems, Claim;
    ItemWorkKeepsDb(cat, base, claimed, Some(c), 100, ALL_MISSING, now);
    MissingIsFriendly();
    OrdersAreValid(cat, base, claimed);
    Browser.FriendlyBatchDoesNotFail(claimed, Some(c), 100, ALL_MISSING, now);
    SameSettled(db, claimed, k);
    CursorLeavesBehind(claimed, Some(c), 100, ALL_MISSING, now, k);
    CleanStores(claimed, Some(c), ALL_MISSING, now);
  }

  lemma OrdersAreValid(cat: Catalogue, base: Store, db: Db)
    requires DbInv(cat, base, db)
    ensures ValidOrders(db.orders)
  {
  }

  // ------------------------------------------------- the loop that stops

  /** The browser takes a clean answer for one that did not advance. */
  predicate Stalls(r: ItemsResult, cursor: Option<nat>) {
    r.failed == 0 && r.hasMore && (r.nextCursor.None? || r.nextCursor == cursor)
  }

  /** It does so exactly when a cursor is stored, more orders wait after the batch that starts there, and
      that clean batch ends on the browser's own cursor. */
  lemma StallsIff(db: Db, cursor: Option<nat>, limit: nat, remote: Remote, now: int)
    requires ItemInv(db) && db.items.Some? && db.items.value.status != Completed && limit >= 1
    ensures var r := WorkItems(db, cursor, limit, remote, now).1;
            var stored := db.items.value.totals.cursor;
            Stalls(r, cursor) <==> r.failed == 0 && stored.Some? && HasMore(db.orders, stored.value, limit)
                                   && LastOf(Selected(db.orders, stored.value, limit)) == cursor
  {
    hide ValidOrders, ItemLedger, From, HasClean, RunOrders, Selected, HasMore, CountWithoutItems, ItemCounts, LeftBehind;
    var after := After(db.items.value.totals, cursor);
    SelectionLaw(db.orders, after, limit);
    var ids := Selected(db.orders, after, limit);
    if ids != [] {
      assert ids[|ids| - 1] in ids;
    }
  }

  /** And that is reached: on every unfinished operation with a stored cursor and more than one batch of
      orders after it, by the tab that holds the next batch's last order as its cursor, whoever owned the
      operation, once the lease has run out. */
  lemma TakeoverStalls(db: Db, cat: Catalogue, base: Store, op: string, now: int)
    requires DbInv(cat, base, db) && db.items.Some? && db.items.value.status != Completed && op != ""
    requires var t := db.items.value.totals;
             t.cursor.Some? && HasMore(db.orders, t.cursor.value, 100) && t.expiresAt.Some? && t.expiresAt.value <= now
    ensures ClaimItems(db, Some(op), now, "uuid").Ok? && ClaimItems(db, Some(op), now, "uuid").value.items.Some?
    ensures var cursor := LastOf(Selected(db.orders, db.items.value.totals.cursor.value, 100));
            cursor.Some? && Stalls(WorkItems(ClaimItems(db, Some(op), now, "uuid").value, cursor, 100, ALL_MISSING, now).1, cursor)
  {
    hide ProductInv, WorkItems, ValidOrders, Friendly, Selected, HasMore, Stalls;
    ClaimRefusal(db.items, Some(op), now, "uuid");
    ItemStepKeepsDb(cat, base, db, Some(op), now, "uuid");
    ClaimHandsOver(db.items, Some(op), now, "uuid");
    var claimed := ClaimItems(db, Some(op), now, "uuid").value;
    var after := db.items.value.totals.cursor.value;
    assert claimed.orders == db.orders && claimed.items.value.status == Running;
    hide ItemInv, ClaimItems, Claim;
    var cursor := LastOf(Selected(db.orders, after, 100));
    OrdersAreValid(cat, base, claimed);
    SelectionLaw(db.orders, after, 100);
    MissingIsFriendly();
    Browser.FriendlyBatchDoesNotFail(claimed, cursor, 100, ALL_MISSING, now);
    StallsIff(claimed, cursor, 100, ALL_MISSING, now);
  }
}
