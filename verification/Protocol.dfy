/** Any number of requests, the Redis lock, the transaction-level guard and the committed database.
    Every source of nondeterminism is a parameter of an action; a disabled action changes nothing. */
module Protocol {
  import opened Common
  import opened Products
  import opened Convergence
  import opened Checkpoint
  import opened OrderItems
  import opened Requests
  import opened Invariants
  import Locks

  const LOCK_KEY := "royale:sync:lock:sync"

  datatype Entity = ProductSync | ItemSync

  /** Working: inside the endpoint. Returned: its `finally` released the lock. Raising: an exception is on its way out. */
  datatype Stage = Working | Returned | Raising

  /** A granted claim: its arguments, its time, the row it handed over, and whether its batch has run. */
  datatype Grant = Grant(op: Option<string>, uuid: string, at: int, got: Row, worked: bool)

  /** An open transaction that holds the guard. `/sync-all` makes two claims, every other request at most one. */
  datatype Tx = Tx(products: Option<Grant>, items: Option<Grant>, local: Db, stage: Stage)

  /** locked: this request took the Redis key and has not yet run its `finally`. */
  datatype Phase = Waiting(locked: bool) | Open(tx: Tx, locked: bool) | Rejected(locked: bool) | Over

  /** Requests are named by the uuid their SyncLock carries. */
  datatype World = World(now: int, redis: map<string, Locks.Entry>, guard: Option<string>, db: Db,
                         requests: map<string, Phase>)

  datatype Action =
    | Tick(seconds: nat)
    | TakeLock(w: string)
    | SkipLock(w: string)
    | TakeGuard(w: string)
    | MakeClaim(w: string, entity: Entity, op: Option<string>, uuid: string)
    | RunProducts(w: string, pages: nat, weather: Weather)
    | RunItems(w: string, cursor: Option<nat>, limit: nat, remote: Remote, details: seq<(nat, nat)>)
    | WriteOrders(w: string, orders: Orders, details: seq<(nat, nat)>)
    | Raise(w: string)
    | ReleaseLock(w: string)
    | Commit(w: string)
    | Rollback(w: string)

  function RowOf(db: Db, e: Entity): Option<Row> {
    if e.ProductSync? then db.products else db.items
  }

  function ClaimOf(db: Db, e: Entity, op: Option<string>, now: int, uuid: string): Result<Db, HttpError> {
    if e.ProductSync? then ClaimProducts(db, op, now, uuid) else ClaimItems(db, op, now, uuid)
  }

  function GrantOf(tx: Tx, e: Entity): Option<Grant> {
    if e.ProductSync? then tx.products else tx.items
  }

  function WithGrant(tx: Tx, e: Entity, g: Grant): Tx {
    if e.ProductSync? then tx.(products := Some(g)) else tx.(items := Some(g))
  }

  function Set(w: World, id: string, p: Phase): World {
    w.(requests := w.requests[id := p])
  }

  predicate AtWork(w: World, id: string) {
    id in w.requests && w.requests[id].Open? && w.requests[id].tx.stage == Working
  }

  function SetTx(w: World, id: string, tx: Tx): World
    requires id in w.requests && w.requests[id].Open?
  {
    Set(w, id, Open(tx, w.requests[id].locked))
  }

  /** The endpoint can return. A claim whose batch never ran is kept only when `/sync-all` swallowed the
      exception: its product request is not in a `try`, its order-items phase is. */
  predicate MayReturn(tx: Tx) {
    (tx.products.Some? ==> tx.products.value.worked) && (tx.items.Some? ==> tx.items.value.worked || tx.products.Some?)
  }

  /** The lock comes first, except where the endpoint takes the guard before it; then it has written nothing yet. */
  function DoTakeLock(w: World, id: string): World {
    var (redis, ok) := Locks.SetNx(w.redis, LOCK_KEY, id, w.now);
    if id !in w.requests then Set(w.(redis := redis), id, if ok then Waiting(true) else Over)
    else if AtWork(w, id) && !w.requests[id].locked && w.requests[id].tx == Tx(None, None, w.db, Working) then
      if ok then Set(w.(redis := redis), id, Open(w.requests[id].tx, true))
      else SetTx(w, id, w.requests[id].tx.(stage := Raising))
    else w
  }

  /** The guard is held until the transaction ends; a busy guard is a 409. */
  function DoTakeGuard(w: World, id: string): World {
    if !(id in w.requests && w.requests[id].Waiting?) then w
    else if w.guard.Some? then Set(w, id, Rejected(w.requests[id].locked))
    else Set(w.(guard := Some(id)), id, Open(Tx(None, None, w.db, Working), w.requests[id].locked))
  }

  /** `/sync-all` goes on to the order items once its product batch has completed the catalogue. */
  predicate MayClaim(tx: Tx, e: Entity) {
    && GrantOf(tx, e).None?
    && (e.ProductSync? ==> tx.items.None?)
    && (tx.products.Some? ==>
          tx.products.value.worked && tx.local.products.Some? && tx.local.products.value.status == Completed)
  }

  /** A refused claim raises; the second one of `/sync-all` is swallowed. */
  function DoClaim(w: World, id: string, e: Entity, op: Option<string>, uuid: string): World {
    if !AtWork(w, id) || uuid == "" || !MayClaim(w.requests[id].tx, e) then w
    else
      var tx := w.requests[id].tx;
      var c := ClaimOf(tx.local, e, op, w.now, uuid);
      if c.Err? then (if tx.products.Some? then w else SetTx(w, id, tx.(stage := Raising)))
      else if RowOf(c.value, e).None? then w
      else SetTx(w, id, WithGrant(tx, e, Grant(op, uuid, w.now, RowOf(c.value, e).value, false)).(local := c.value))
  }

  function DoRunProducts(w: World, id: string, cat: Catalogue, pages: nat, weather: Weather): World {
    if !AtWork(w, id) || !(1 <= pages <= 5) then w
    else
      var tx := w.requests[id].tx;
      if tx.products.None? || tx.products.value.worked then w
      else if tx.local.products.None? || tx.local.products.value.currentPage < 1 then w
      else SetTx(w, id, tx.(products := Some(tx.products.value.(worked := true)),
                            local := WorkProducts(tx.local, cat, pages, weather, w.now).0))
  }

  predicate InItems(w: World, id: string) {
    AtWork(w, id) && w.requests[id].tx.items.Some? && !w.requests[id].tx.items.value.worked
    && w.requests[id].tx.local.items.Some?
  }

  function DoRunItems(w: World, id: string, cat: Catalogue, cursor: Option<nat>, limit: nat, remote: Remote,
                      details: seq<(nat, nat)>): World {
    if !InItems(w, id) || !(1 <= limit <= 100) then w
    else
      var tx := w.requests[id].tx;
      var db := WorkItems(tx.local, cursor, limit, remote, w.now).0;
      SetTx(w, id, tx.(items := Some(tx.items.value.(worked := true)),
                       local := db.(store := UpsertDetails(db.store, cat, details))))
  }

  /** The order sync: new orders, new lines, and products its lines named. */
  ghost function DoWriteOrders(w: World, id: string, cat: Catalogue, orders: Orders, details: seq<(nat, nat)>): World {
    if !AtWork(w, id) || !ValidOrders(orders) || !Grows(w.requests[id].tx.local.orders, orders) then w
    else
      var tx := w.requests[id].tx;
      SetTx(w, id, tx.(local := tx.local.(orders := orders, store := UpsertDetails(tx.local.store, cat, details))))
  }

  /** The endpoint's `finally`, which runs before the session dependency commits or rolls back. */
  function DoRelease(w: World, id: string): World {
    if id !in w.requests then w
    else
      var p := w.requests[id];
      var redis := Locks.CompareAndDelete(w.redis, LOCK_KEY, id, w.now).0;
      if p.Rejected? && p.locked then Set(w.(redis := redis), id, Rejected(false))
      else if p.Open? && p.locked && p.tx.stage == Raising then Set(w.(redis := redis), id, Open(p.tx, false))
      else if p.Open? && p.locked && MayReturn(p.tx) then
        Set(w.(redis := redis), id, Open(p.tx.(stage := Returned), false))
      else w
  }

  function DoCommit(w: World, id: string): World {
    if !(id in w.requests && w.requests[id].Open?) then w
    else
      var p := w.requests[id];
      if p.locked || p.tx.stage == Raising || !MayReturn(p.tx) then w
      else Set(w.(db := p.tx.local, guard := None), id, Over)
  }

  ghost function Next(w: World, a: Action, cat: Catalogue): World {
    match a
    case Tick(d) => w.(now := w.now + d)
    case TakeLock(id) => DoTakeLock(w, id)
    case SkipLock(id) => if id in w.requests then w else Set(w, id, Waiting(false))
    case TakeGuard(id) => DoTakeGuard(w, id)
    case MakeClaim(id, e, op, uuid) => DoClaim(w, id, e, op, uuid)
    case RunProducts(id, pages, weather) => DoRunProducts(w, id, cat, pages, weather)
    case RunItems(id, cursor, limit, remote, details) => DoRunItems(w, id, cat, cursor, limit, remote, details)
    case WriteOrders(id, orders, details) => DoWriteOrders(w, id, cat, orders, details)
    case Raise(id) => if AtWork(w, id) then SetTx(w, id, w.requests[id].tx.(stage := Raising)) else w
    case ReleaseLock(id) => DoRelease(w, id)
    case Commit(id) => DoCommit(w, id)
    case Rollback(id) =>
      if id !in w.requests then w
      else Set(if w.requests[id].Open? then w.(guard := None) else w, id, Over)
  }

  ghost function Run(w: World, actions: seq<Action>, cat: Catalogue): World {
    if actions == [] then w
    else Next(Run(w, actions[..|actions| - 1], cat), actions[|actions| - 1], cat)
  }

  // -------------------------------------------------------------- the invariant

  /** What a transaction's view of one entity has to do with the committed row. */
  ghost predicate EntityInv(w: World, tx: Tx, e: Entity) {
    match GrantOf(tx, e)
    case None => RowOf(tx.local, e) == RowOf(w.db, e)
    case Some(g) =>
      && g.at <= w.now && g.uuid != ""
      && Claim(RowOf(w.db, e), g.op, g.at, g.uuid) == Ok(g.got)
      && RowOf(tx.local, e).Some? && RowOf(tx.local, e).value.totals.operation == g.got.totals.operation
  }

  ghost predicate TxInv(w: World, cat: Catalogue, base: Store, tx: Tx) {
    DbInv(cat, base, tx.local) && EntityInv(w, tx, ProductSync) && EntityInv(w, tx, ItemSync)
  }

  ghost predicate Safe(w: World, cat: Catalogue, base: Store) {
    && DbInv(cat, base, w.db)
    && (w.guard.Some? ==> w.guard.value in w.requests && w.requests[w.guard.value].Open?)
    && (forall id :: id in w.requests && w.requests[id].Open? ==>
          w.guard == Some(id) && TxInv(w, cat, base, w.requests[id].tx))
  }

  lemma WorkKeepsOwner(db: Db, cat: Catalogue, pages: nat, weather: Weather, now: int)
    requires db.products.Some? && db.products.value.currentPage >= 1
    ensures var db' := WorkProducts(db, cat, pages, weather, now).0;
            && db'.products.Some? && db'.items == db.items && db'.orders == db.orders
            && db'.products.value.totals.operation == db.products.value.totals.operation
  {
    hide RunPages, AddCounts;
  }

  lemma ItemWorkKeepsOwner(db: Db, cursor: Option<nat>, limit: nat, remote: Remote, now: int)
    requires db.items.Some?
    ensures var db' := WorkItems(db, cursor, limit, remote, now).0;
            && db'.items.Some? && db'.products == db.products && db'.store == db.store
            && db'.items.value.totals.operation == db.items.value.totals.operation
  {
    hide RunOrders, Selected, HasMore, CountWithoutItems, ItemCounts;
  }

  lemma ClaimLeavesOther(db: Db, e: Entity, op: Option<string>, now: int, uuid: string)
    requires ClaimOf(db, e, op, now, uuid).Ok?
    ensures var db' := ClaimOf(db, e, op, now, uuid).value;
            RowOf(db', e).Some? && db'.store == db.store && db'.orders == db.orders
            && forall f :: f != e ==> RowOf(db', f) == RowOf(db, f)
    ensures Claim(RowOf(db, e), op, now, uuid) == Ok(RowOf(ClaimOf(db, e, op, now, uuid).value, e).value)
  {
    hide Claim;
  }

  lemma ClaimStep(w: World, a: Action, cat: Catalogue, base: Store)
    requires Clean(cat, base) && Safe(w, cat, base) && a.MakeClaim?
    ensures Safe(Next(w, a, cat), cat, base)
  {
    hide DbInv, ClaimOf, Clean, Claim;
    if AtWork(w, a.w) && a.uuid != "" && MayClaim(w.requests[a.w].tx, a.entity) {
      var tx := w.requests[a.w].tx;
      if ClaimOf(tx.local, a.entity, a.op, w.now, a.uuid).Ok? {
        ClaimLeavesOther(tx.local, a.entity, a.op, w.now, a.uuid);
        GrantedKeepsDb(tx.local, a.entity, a.op, w.now, a.uuid, cat, base);
      }
    }
  }

  lemma GrantedKeepsDb(db: Db, e: Entity, op: Option<string>, at: int, uuid: string, cat: Catalogue, base: Store)
    requires DbInv(cat, base, db) && uuid != "" && ClaimOf(db, e, op, at, uuid).Ok?
    ensures DbInv(cat, base, ClaimOf(db, e, op, at, uuid).value)
  {
    hide DbInv;
    if e.ProductSync? {
      ProductStepKeepsDb(cat, base, db, op, at, uuid);
    } else {
      ItemStepKeepsDb(cat, base, db, op, at, uuid);
    }
  }

  lemma RunProductsStep(w: World, a: Action, cat: Catalogue, base: Store)
    requires Clean(cat, base) && Safe(w, cat, base) && a.RunProducts?
    ensures Safe(Next(w, a, cat), cat, base)
  {
    hide DbInv, Clean, WorkProducts, Claim;
    if AtWork(w, a.w) && 1 <= a.pages <= 5 {
      var db := w.requests[a.w].tx.local;
      if db.products.Some? && db.products.value.currentPage >= 1 {
        ProductWorkKeepsDb(cat, base, db, a.pages, a.weather, w.now);
        WorkKeepsOwner(db, cat, a.pages, a.weather, w.now);
      }
    }
  }

  lemma RunItemsStep(w: World, a: Action, cat: Catalogue, base: Store)
    requires Clean(cat, base) && Safe(w, cat, base) && a.RunItems?
    ensures Safe(Next(w, a, cat), cat, base)
  {
    hide DbInv, Clean, WorkItems, Claim;
    if InItems(w, a.w) && 1 <= a.limit <= 100 {
      var db := w.requests[a.w].tx.local;
      ItemWorkKeepsDb(cat, base, db, a.cursor, a.limit, a.remote, w.now);
      ItemWorkKeepsOwner(db, a.cursor, a.limit, a.remote, w.now);
      SameOrdersStillGood(cat, base, WorkItems(db, a.cursor, a.limit, a.remote, w.now).0, a.details);
    }
  }

  lemma SameOrdersStillGood(cat: Catalogue, base: Store, db: Db, details: seq<(nat, nat)>)
    requires Clean(cat, base) && DbInv(cat, base, db)
    ensures DbInv(cat, base, db.(store := UpsertDetails(db.store, cat, details)))
  {
    OtherWritesKeepDb(cat, base, db, db.orders, details);
    assert db.(orders := db.orders, store := UpsertDetails(db.store, cat, details))
        == db.(store := UpsertDetails(db.store, cat, details));
  }

  lemma WriteOrdersStep(w: World, a: Action, cat: Catalogue, base: Store)
    requires Clean(cat, base) && Safe(w, cat, base) && a.WriteOrders?
    ensures Safe(Next(w, a, cat), cat, base)
  {
    hide DbInv, Clean, ValidOrders, Grows, Claim, UpsertDetails;
    if AtWork(w, a.w) && ValidOrders(a.orders) && Grows(w.requests[a.w].tx.local.orders, a.orders) {
      OtherWritesKeepDb(cat, base, w.requests[a.w].tx.local, a.orders, a.details);
    }
  }

  lemma LockStep(w: World, a: Action, cat: Catalogue, base: Store)
    requires Clean(cat, base) && Safe(w, cat, base) && (a.TakeLock? || a.ReleaseLock?)
    ensures Safe(Next(w, a, cat), cat, base)
  {
    hide DbInv, Clean, Claim, MayReturn, Locks.SetNx, Locks.CompareAndDelete, EntityInv;
    if a.w in w.requests && w.requests[a.w].Open? {
      var tx := w.requests[a.w].tx;
      var w' := Next(w, a, cat);
      StageIsFree(w, w', tx, ProductSync);
      StageIsFree(w, w', tx, ItemSync);
    }
    forall id | id in w.requests && w.requests[id].Open? ensures TxInv(Next(w, a, cat), cat, base, w.requests[id].tx) {
      StageIsFree(w, Next(w, a, cat), w.requests[id].tx, ProductSync);
      StageIsFree(w, Next(w, a, cat), w.requests[id].tx, ItemSync);
    }
  }

  /** Locks and stages are not what the invariant is about. */
  lemma StageIsFree(w: World, w': World, tx: Tx, e: Entity)
    requires EntityInv(w, tx, e) && w'.db == w.db && w'.now == w.now
    ensures forall stage :: EntityInv(w', tx.(stage := stage), e)
  {
    hide Claim;
  }

  lemma GuardStep(w: World, a: Action, cat: Catalogue, base: Store)
    requires Clean(cat, base) && Safe(w, cat, base) && (a.SkipLock? || a.TakeGuard?)
    ensures Safe(Next(w, a, cat), cat, base)
  {
    hide DbInv, Clean, Claim;
  }

  lemma EndStep(w: World, a: Action, cat: Catalogue, base: Store)
    requires Clean(cat, base) && Safe(w, cat, base)
    requires a.Tick? || a.Raise? || a.Rollback? || a.Commit?
    ensures Safe(Next(w, a, cat), cat, base)
  {
    hide DbInv, Clean, Claim, MayReturn;
  }

  lemma StepKeepsSafe(w: World, a: Action, cat: Catalogue, base: Store)
    requires Clean(cat, base) && Safe(w, cat, base)
    ensures Safe(Next(w, a, cat), cat, base)
  {
    hide Safe, Clean, Next;
    match a {
      case MakeClaim(_, _, _, _) => ClaimStep(w, a, cat, base);
      case RunProducts(_, _, _) => RunProductsStep(w, a, cat, base);
      case RunItems(_, _, _, _, _) => RunItemsStep(w, a, cat, base);
      case WriteOrders(_, _, _) => WriteOrdersStep(w, a, cat, base);
      case Tick(_) => EndStep(w, a, cat, base);
      case Raise(_) => EndStep(w, a, cat, base);
      case Rollback(_) => EndStep(w, a, cat, base);
      case Commit(_) => EndStep(w, a, cat, base);
      case SkipLock(_) => GuardStep(w, a, cat, base);
      case TakeGuard(_) => GuardStep(w, a, cat, base);
      case _ => LockStep(w, a, cat, base);
    }
  }

  /** Every run from a safe world stays safe, whatever the actions. */
  lemma {:induction false} RunsStaySafe(w: World, actions: seq<Action>, cat: Catalogue, base: Store)
    requires Clean(cat, base) && Safe(w, cat, base)
    ensures Safe(Run(w, actions, cat), cat, base)
  {
    hide Safe, Clean, Next;
    if actions != [] {
      RunsStaySafe(w, actions[..|actions| - 1], cat, base);
      StepKeepsSafe(Run(w, actions[..|actions| - 1], cat), actions[|actions| - 1], cat, base);
    }
  }

  // ------------------------------------------------------------------ theorems

  /** An empty world: no request yet, no checkpoint yet, `base` already in the product table. */
  ghost predicate Initial(w: World, base: Store) {
    && w.guard.None? && w.requests == map[]
    && w.db.products.None? && w.db.items.None? && w.db.store == base && ValidOrders(w.db.orders)
  }

  lemma InitialIsSafe(w: World, cat: Catalogue, base: Store)
    requires Clean(cat, base) && Initial(w, base)
    ensures Safe(w, cat, base)
  {
    StartProgress(base, cat);
  }

  /** Convergence over all runs: whenever the product checkpoint says completed, the product table is
      the one a single uninterrupted pass leaves, whatever was interleaved, lost, expired or taken over. */
  lemma CompletedRunsConverge(w: World, actions: seq<Action>, cat: Catalogue, base: Store)
    requires Clean(cat, base) && Cut(cat, 100) && Initial(w, base)
    requires var row := Run(w, actions, cat).db.products; row.Some? && row.value.status == Completed
    ensures var db := Run(w, actions, cat).db;
            && db.products.value.lastCompletedPage >= |cat.pages|
            && db.store.products == Pass(base, cat, db.products.value.lastCompletedPage).products
  {
    InitialIsSafe(w, cat, base);
    RunsStaySafe(w, actions, cat, base);
    CompletedMeansFullPass(cat, base, Run(w, actions, cat).db);
  }

  /** At every commit point: pages fit, totals are sums, finished pages are stored. */
  lemma CheckpointTellsTheTruth(w: World, actions: seq<Action>, cat: Catalogue, base: Store)
    requires Clean(cat, base) && Initial(w, base)
    ensures var db := Run(w, actions, cat).db;
            && (forall p, i :: Usable(cat, p, i) && p < Finished(db.products) ==> IsNew(base, db.store, Item(cat, p, i)))
            && (db.products.Some? ==> PagesFit(cat, db.products.value) && Ledger(db.products.value, db.log.batches))
            && (db.items.Some? ==> ItemLedger(db.items.value, db.log.posts))
  {
    InitialIsSafe(w, cat, base);
    RunsStaySafe(w, actions, cat, base);
    var db := Run(w, actions, cat).db;
    forall p, i | Usable(cat, p, i) && p < Finished(db.products)
      ensures IsNew(base, db.store, Item(cat, p, i))
    {
      FinishedPagesAreStored(cat, base, db, p, i);
    }
  }

  /** Order items over all runs, exactly: of the orders that had no items when the operation started, those
      it has settled at completion, or has passed before, are the ones it did not leave behind when its
      first clean batch started from a posted cursor, and those that have items anyway because another
      writer gave them some. The stored cursor passes no order whose last attempt failed and left it bare,
      but for the ones left behind. */
  lemma ItemRunsSettleOrders(w: World, actions: seq<Action>, cat: Catalogue, base: Store, id: nat)
    requires Clean(cat, base) && Initial(w, base) && Run(w, actions, cat).db.items.Some?
    ensures var db := Run(w, actions, cat).db;
            && (id in db.log.started && (db.items.value.status == Completed || Passed(db.items.value, id)) ==>
                  (Settled(db, id) <==> id !in db.log.skipped || HasItems(db.orders, id)))
            && (id in db.log.attempts && !db.log.attempts[id] && Passed(db.items.value, id) ==>
                  id in db.log.skipped || HasItems(db.orders, id))
  {
    hide ValidOrders, Clean, From, HasClean, ItemLedger, Settled, Passed, LeftBehind;
    InitialIsSafe(w, cat, base);
    RunsStaySafe(w, actions, cat, base);
    var db := Run(w, actions, cat).db;
    if id in db.log.started && (db.items.value.status == Completed || Passed(db.items.value, id)) {
      SettledIff(db, id);
    }
  }

  /** So a completed operation has settled all its orders if and only if the ones it left behind, the
      orders at or before its first clean batch's cursor that were unsettled then, have items by now. */
  lemma AllSettledIff(w: World, actions: seq<Action>, cat: Catalogue, base: Store)
    requires Clean(cat, base) && Initial(w, base)
    requires var db := Run(w, actions, cat).db; db.items.Some? && db.items.value.status == Completed
    ensures var db := Run(w, actions, cat).db;
            (forall id :: id in db.log.started ==> Settled(db, id))
            <==> (forall id :: id in db.log.started && id in db.log.skipped ==> HasItems(db.orders, id))
  {
    hide Run, Settled, HasItems;
    var db := Run(w, actions, cat).db;
    forall id | id in db.log.started
      ensures Settled(db, id) <==> id !in db.log.skipped || HasItems(db.orders, id)
    {
      ItemRunsSettleOrders(w, actions, cat, base, id);
    }
  }

  /** Nothing beyond the cursor posted with the first clean batch is left behind. */
  lemma NothingBeyondIsLeft(w: World, actions: seq<Action>, cat: Catalogue, base: Store, id: nat)
    requires Clean(cat, base) && Initial(w, base)
    requires var db := Run(w, actions, cat).db; db.items.Some? && Beyond(From(db.log.posts), id)
    ensures id !in Run(w, actions, cat).db.log.skipped
  {
    hide ValidOrders, Clean, From, HasClean, ItemLedger, Settled, Passed;
    InitialIsSafe(w, cat, base);
    RunsStaySafe(w, actions, cat, base);
    var db := Run(w, actions, cat).db;
    assert id in db.log.skipped ==> LeftBehind(db, db.items.value, id);
  }

  /** A request posts a cursor only while the checkpoint it claimed holds one. */
  predicate PostsNoStart(w: World, a: Action) {
    a.RunItems? && a.cursor.Some? && InItems(w, a.w) ==>
      w.requests[a.w].tx.local.items.value.totals.cursor.Some?
  }

  ghost predicate Disciplined(w: World, actions: seq<Action>, cat: Catalogue) {
    actions == []
    || (Disciplined(w, actions[..|actions| - 1], cat)
        && PostsNoStart(Run(w, actions[..|actions| - 1], cat), actions[|actions| - 1]))
  }

  ghost predicate TopInv(w: World) {
    && (w.db.items.Some? ==> StartedAtTheTop(w.db.log.posts))
    && forall id :: id in w.requests && w.requests[id].Open? && w.requests[id].tx.local.items.Some? ==>
         StartedAtTheTop(w.requests[id].tx.local.log.posts)
  }

  lemma WorkStartsAtTheTop(db: Db, cursor: Option<nat>, limit: nat, remote: Remote, now: int)
    requires db.items.Some? && StartedAtTheTop(db.log.posts) && ItemInv(db)
    requires cursor.Some? ==> db.items.value.totals.cursor.Some?
    ensures StartedAtTheTop(WorkItems(db, cursor, limit, remote, now).0.log.posts)
  {
    hide ValidOrders, RunOrders, Selected, HasMore, CountWithoutItems, ItemCounts, HasClean, ItemLedger, Settled, From;
    var (db', r) := WorkItems(db, cursor, limit, remote, now);
    if db'.log.posts != db.log.posts {
      var posts := db.log.posts;
      var more := posts + [Post(cursor, r)];
      forall i | 0 <= i < |more| && !HasClean(more[..i]) ensures more[i].cursor.None? {
        assert more[..i] == posts[..i];
        assert posts[..|posts|] == posts;
      }
    }
  }

  lemma ClaimStartsAtTheTop(db: Db, e: Entity, op: Option<string>, now: int, uuid: string)
    requires ClaimOf(db, e, op, now, uuid).Ok? && (db.items.Some? ==> StartedAtTheTop(db.log.posts))
    ensures var db' := ClaimOf(db, e, op, now, uuid).value; db'.items.Some? ==> StartedAtTheTop(db'.log.posts)
  {
    hide Claim;
  }

  lemma WorkKeepsPosts(db: Db, cat: Catalogue, pages: nat, weather: Weather, now: int)
    requires db.products.Some? && db.products.value.currentPage >= 1
    ensures WorkProducts(db, cat, pages, weather, now).0.log.posts == db.log.posts
  {
    hide RunPages, AddCounts;
  }

  lemma StepKeepsTop(w: World, a: Action, cat: Catalogue, base: Store)
    requires Safe(w, cat, base) && TopInv(w) && PostsNoStart(w, a)
    ensures TopInv(Next(w, a, cat))
  {
    hide StartedAtTheTop, ClaimOf, WorkProducts, WorkItems, ValidOrders, Grows, UpsertDetails, ProductInv, ItemInv, Claim;
    if a.MakeClaim? && AtWork(w, a.w) && MayClaim(w.requests[a.w].tx, a.entity) {
      if ClaimOf(w.requests[a.w].tx.local, a.entity, a.op, w.now, a.uuid).Ok? {
        ClaimStartsAtTheTop(w.requests[a.w].tx.local, a.entity, a.op, w.now, a.uuid);
      }
    } else if a.RunItems? && InItems(w, a.w) {
      WorkStartsAtTheTop(w.requests[a.w].tx.local, a.cursor, a.limit, a.remote, w.now);
    } else if a.RunProducts? && AtWork(w, a.w) {
      var db := w.requests[a.w].tx.local;
      if db.products.Some? && db.products.value.currentPage >= 1 {
        WorkKeepsPosts(db, cat, a.pages, a.weather, w.now);
        WorkKeepsOwner(db, cat, a.pages, a.weather, w.now);
      }
    }
  }

  lemma {:induction false} DisciplinedRunsStartAtTheTop(w: World, actions: seq<Action>, cat: Catalogue, base: Store)
    requires Clean(cat, base) && Initial(w, base) && Disciplined(w, actions, cat)
    ensures TopInv(Run(w, actions, cat))
  {
    hide Clean, Next, StartedAtTheTop, PostsNoStart, ValidOrders, Safe;
    if actions != [] {
      var before := actions[..|actions| - 1];
      DisciplinedRunsStartAtTheTop(w, before, cat, base);
      InitialIsSafe(w, cat, base);
      RunsStaySafe(w, before, cat, base);
      StepKeepsTop(Run(w, before, cat), actions[|actions| - 1], cat, base);
    }
  }

  /** If no request posts a cursor before one is stored, a completed operation has settled every order
      that had no items when it started, over all runs. */
  lemma DisciplinedRunsSettleAll(w: World, actions: seq<Action>, cat: Catalogue, base: Store, id: nat)
    requires Clean(cat, base) && Initial(w, base) && Disciplined(w, actions, cat)
    requires var db := Run(w, actions, cat).db;
             db.items.Some? && db.items.value.status == Completed && id in db.log.started
    ensures Settled(Run(w, actions, cat).db, id)
  {
    hide Run, Clean, Disciplined, Settled, StartedAtTheTop;
    DisciplinedRunsStartAtTheTop(w, actions, cat, base);
    TopMeansNoStart(Run(w, actions, cat).db.log.posts);
    NothingBeyondIsLeft(w, actions, cat, base, id);
    ItemRunsSettleOrders(w, actions, cat, base, id);
  }

  /** At most one transaction holds the guard and is still open. */
  lemma OneClaimAtATime(w: World, actions: seq<Action>, cat: Catalogue, base: Store, a: string, b: string)
    requires Clean(cat, base) && Initial(w, base)
    requires var r := Run(w, actions, cat).requests; a in r && b in r && r[a].Open? && r[b].Open?
    ensures a == b
  {
    hide DbInv, TxInv, Clean;
    InitialIsSafe(w, cat, base);
    RunsStaySafe(w, actions, cat, base);
  }

  lemma GrantedClaim(row: Row, op: Option<string>, at: int, uuid: string)
    requires row.status != Completed && Leased(row) && Claim(Some(row), op, at, uuid).Ok?
    ensures var r := Claim(Some(row), op, at, uuid).value;
            && (r.totals.operation != row.totals.operation ==> row.totals.expiresAt.value <= at)
            && r.currentPage == row.currentPage && r.lastCompletedPage == row.lastCompletedPage
            && r.totals.counts == row.totals.counts && r.totals.cursor == row.totals.cursor
  {
  }

  /** An unfinished operation changes owner only by a commit whose claim came at or after the lease's
      end, with nobody else's transaction open; the claim kept the pages, the totals and the cursor. */
  lemma OwnerMovesOnlyAfterExpiry(w: World, a: Action, cat: Catalogue, base: Store, e: Entity)
    requires Clean(cat, base) && Safe(w, cat, base)
    requires RowOf(w.db, e).Some? && RowOf(w.db, e).value.status != Completed
    requires var after := RowOf(Next(w, a, cat).db, e);
             after.None? || after.value.totals.operation != RowOf(w.db, e).value.totals.operation
    ensures a.Commit? && a.w in w.requests && w.requests[a.w].Open? && GrantOf(w.requests[a.w].tx, e).Some?
            && var g, row := GrantOf(w.requests[a.w].tx, e).value, RowOf(w.db, e).value;
               && row.totals.expiresAt.Some? && row.totals.expiresAt.value <= g.at <= w.now
               && (forall other :: other in w.requests && other != a.w ==> !w.requests[other].Open?)
               && g.got.currentPage == row.currentPage && g.got.lastCompletedPage == row.lastCompletedPage
               && g.got.totals.counts == row.totals.counts && g.got.totals.cursor == row.totals.cursor
  {
    hide Clean, Progress, ValidOrders, Grows, UpsertDetails, Claim, DoClaim, DoRunItems, DoRunProducts, DoWriteOrders;
    NonCommitKeepsRows(w, a, cat, e);
    assert a.Commit?;
    var tx := w.requests[a.w].tx;
    assert TxInv(w, cat, base, tx) && EntityInv(w, tx, e);
    var g, row := GrantOf(tx, e).value, RowOf(w.db, e).value;
    assert Leased(row);
    GrantedClaim(row, g.op, g.at, g.uuid);
  }

  lemma NonCommitKeepsRows(w: World, a: Action, cat: Catalogue, e: Entity)
    ensures !a.Commit? ==> Next(w, a, cat).db == w.db
  {
    hide UpsertDetails, ClaimOf, WorkProducts, WorkItems, ValidOrders, Grows;
  }

  /** A live Redis lock is only ever removed by its own holder's release. */
  lemma LiveLockBelongsToItsHolder(w: World, a: Action, cat: Catalogue)
    requires Locks.Live(w.redis, LOCK_KEY, w.now) && !(a.ReleaseLock? && a.w == w.redis[LOCK_KEY].owner)
    ensures Next(w, a, cat).redis == w.redis
  {
    hide UpsertDetails, ClaimOf, WorkProducts, WorkItems, ValidOrders, Grows;
  }

  lemma {:induction false} RunAppend(w: World, s: seq<Action>, t: seq<Action>, cat: Catalogue)
    ensures Run(w, s + t, cat) == Run(Run(w, s, cat), t, cat)
  {
    hide Next;
    if t == [] {
      assert s + t == s;
    } else {
      assert (s + t)[..|s + t| - 1] == s + t[..|t| - 1];
      RunAppend(w, s, t[..|t| - 1], cat);
    }
  }

  lemma RunOne(w: World, a: Action, cat: Catalogue)
    ensures Run(w, [a], cat) == Next(w, a, cat)
  {
    hide Next;
    assert [a][..0] == [];
  }

  /** A request that takes the free lock, claims, works and has not committed yet. */
  lemma WorkedUnderLock(w: World, cat: Catalogue, base: Store, a: string)
    requires Clean(cat, base) && Initial(w, base) && w.redis == map[]
    ensures var r := Next(Next(Next(Next(w, TakeLock(a), cat), TakeGuard(a), cat),
                               MakeClaim(a, ProductSync, Some("op"), "uuid"), cat), RunProducts(a, 1, CALM), cat);
            && a in r.requests && r.requests.Keys == {a} && AtWork(r, a) && r.requests[a].locked
            && r.requests[a].tx.products.Some? && r.requests[a].tx.products.value.worked && r.requests[a].tx.items.None?
            && r.guard == Some(a) && r.now == w.now
            && r.redis == Locks.SetNx(map[], LOCK_KEY, a, w.now).0
  {
    hide WorkProducts, UpsertDetails, ValidOrders, Grows, Clean, WorkItems;
    var w1 := Next(w, TakeLock(a), cat);
    assert w1.requests[a] == Waiting(true);
    var w2 := Next(w1, TakeGuard(a), cat);
    var w3 := Next(w2, MakeClaim(a, ProductSync, Some("op"), "uuid"), cat);
    assert AtWork(w3, a) && w3.requests[a].tx.products.Some? && w3.requests[a].tx.local.products.value.currentPage == 1;
  }

  /** The lock alone does not exclude: it is released before the commit, so a second request can hold
      it while the first one's transaction is open. What keeps the second out is the guard. */
  lemma LockIsNotEnough(w: World, cat: Catalogue, base: Store, a: string, b: string)
    requires Clean(cat, base) && Initial(w, base) && w.redis == map[] && a != b
    ensures exists actions: seq<Action> ::
              var r := Run(w, actions, cat);
              && a in r.requests && r.requests[a].Open? && b in r.requests && r.requests[b] == Waiting(true)
              && LOCK_KEY in r.redis && r.redis[LOCK_KEY].owner == b
              && Next(r, TakeGuard(b), cat).requests[b] == Rejected(true)
  {
    hide WorkProducts, UpsertDetails, ValidOrders, Grows, Clean, WorkItems, ClaimOf, Run;
    var s := [TakeLock(a), TakeGuard(a), MakeClaim(a, ProductSync, Some("op"), "uuid"), RunProducts(a, 1, CALM),
              ReleaseLock(a), TakeLock(b)];
    SixSteps(w, s, cat);
    WorkedUnderLock(w, cat, base, a);
    var w4 := Next(Next(Next(Next(w, s[0], cat), s[1], cat), s[2], cat), s[3], cat);
    hide Next, DoRunProducts, DoClaim, AtWork;
    LockChangesHands(w4, cat, a, b);
    assert Next(Next(w4, ReleaseLock(a), cat), TakeLock(b), cat) == Run(w, s, cat);
  }

  lemma LockChangesHands(w: World, cat: Catalogue, a: string, b: string)
    requires a != b && a in w.requests && w.requests.Keys == {a} && AtWork(w, a) && w.requests[a].locked
    requires w.requests[a].tx.products.Some? && w.requests[a].tx.products.value.worked && w.requests[a].tx.items.None?
    requires w.guard == Some(a) && w.redis == Locks.SetNx(map[], LOCK_KEY, a, w.now).0
    ensures var r := Next(Next(w, ReleaseLock(a), cat), TakeLock(b), cat);
            && a in r.requests && r.requests[a].Open? && b in r.requests && r.requests[b] == Waiting(true)
            && LOCK_KEY in r.redis && r.redis[LOCK_KEY].owner == b
            && Next(r, TakeGuard(b), cat).requests[b] == Rejected(true)
  {
    hide WorkProducts, UpsertDetails, ValidOrders, Grows, WorkItems, ClaimOf;
    var w5 := Next(w, ReleaseLock(a), cat);
    assert w5.requests[a].Open? && LOCK_KEY !in w5.redis && w5.guard == Some(a) && b !in w5.requests;
    var w6 := Next(w5, TakeLock(b), cat);
    assert w6.requests[b] == Waiting(true);
  }

  lemma SixSteps(w: World, s: seq<Action>, cat: Catalogue)
    requires |s| == 6
    ensures Run(w, s, cat)
         == Next(Next(Next(Next(Next(Next(w, s[0], cat), s[1], cat), s[2], cat), s[3], cat), s[4], cat), s[5], cat)
  {
    hide Next;
    FiveSteps(w, s[..5], cat);
  }

  lemma FiveSteps(w: World, s: seq<Action>, cat: Catalogue)
    requires |s| == 5
    ensures Run(w, s, cat) == Next(Next(Next(Next(Next(w, s[0], cat), s[1], cat), s[2], cat), s[3], cat), s[4], cat)
  {
    hide Next;
    assert s[..4][..3] == s[..3] && s[..3][..2] == s[..2] && s[..2][..1] == s[..1] && s[..1][..0] == [];
    assert Run(w, s[..1], cat) == Next(w, s[0], cat);
    assert Run(w, s[..2], cat) == Next(Run(w, s[..1], cat), s[1], cat);
    assert Run(w, s[..3], cat) == Next(Run(w, s[..2], cat), s[2], cat);
    assert Run(w, s[..4], cat) == Next(Run(w, s[..3], cat), s[3], cat);
  }

  // ------------------------------------------------- a whole order-items request

  /** The guard is free and no live lock stands. */
  predicate Quiet(w: World) {
    w.guard.None? && !Locks.Live(w.redis, LOCK_KEY, w.now)
  }

  function Locked(w: World, id: string): map<string, Locks.Entry> {
    w.redis[LOCK_KEY := Locks.Entry(id, w.now + 600)]
  }

  /** A name longer than any in use is new. */
  function Name(n: nat): string {
    seq(n, _ => 'a')
  }

  lemma LongName(n: nat)
    ensures |Name(n + 1)| == n + 1
  {
  }

  function ItemRequest(id: string, op: string, cursor: Option<nat>, remote: Remote): seq<Action> {
    [TakeLock(id), TakeGuard(id), MakeClaim(id, ItemSync, Some(op), "uuid"), RunItems(id, cursor, 100, remote, []),
     ReleaseLock(id), Commit(id)]
  }

  /** The request after its claim, before its batch. */
  function Claimed(w: World, id: string, op: string): World
    requires ClaimItems(w.db, Some(op), w.now, "uuid").Ok?
    requires ClaimItems(w.db, Some(op), w.now, "uuid").value.items.Some?
  {
    var db := ClaimItems(w.db, Some(op), w.now, "uuid").value;
    var grant := Grant(Some(op), "uuid", w.now, db.items.value, false);
    Set(w.(guard := Some(id), redis := Locked(w, id)), id, Open(Tx(None, Some(grant), db, Working), true))
  }

  lemma ClaimsItems(w: World, cat: Catalogue, id: string, op: string)
    requires Quiet(w) && id !in w.requests && ClaimItems(w.db, Some(op), w.now, "uuid").Ok?
    requires ClaimItems(w.db, Some(op), w.now, "uuid").value.items.Some?
    ensures Next(Next(Next(w, TakeLock(id), cat), TakeGuard(id), cat), MakeClaim(id, ItemSync, Some(op), "uuid"), cat)
         == Claimed(w, id, op)
  {
    hide ClaimItems, ClaimProducts;
    var w1 := Next(w, TakeLock(id), cat);
    assert w1 == Set(w.(redis := Locked(w, id)), id, Waiting(true));
    var w2 := Next(w1, TakeGuard(id), cat);
    assert w2.requests == w.requests[id := Open(Tx(None, None, w.db, Working), true)];
    assert w2.requests[id := Claimed(w, id, op).requests[id]] == Claimed(w, id, op).requests;
  }

  lemma WorksAndCommits(w: World, cat: Catalogue, id: string, op: string, cursor: Option<nat>, remote: Remote)
    requires Quiet(w) && ClaimItems(w.db, Some(op), w.now, "uuid").Ok?
    requires ClaimItems(w.db, Some(op), w.now, "uuid").value.items.Some?
    ensures Next(Next(Next(Claimed(w, id, op), RunItems(id, cursor, 100, remote, []), cat), ReleaseLock(id), cat), Commit(id), cat)
         == w.(db := WorkItems(ClaimItems(w.db, Some(op), w.now, "uuid").value, cursor, 100, remote, w.now).0,
               requests := w.requests[id := Over], redis := w.redis - {LOCK_KEY})
  {
    hide ClaimItems, WorkItems;
    var w3 := Claimed(w, id, op);
    var db := w3.requests[id].tx.local;
    var db' := WorkItems(db, cursor, 100, remote, w.now).0;
    assert db'.(store := UpsertDetails(db'.store, cat, [])) == db';
    hide UpsertDetails;
    var w4 := Next(w3, RunItems(id, cursor, 100, remote, []), cat);
    assert w4.requests[id].tx.local == db';
    var w5 := Next(w4, ReleaseLock(id), cat);
    assert w5.redis == w.redis - {LOCK_KEY};
    assert w5.requests[id := Over] == w.requests[id := Over];
  }

  /** A whole order-items request with nobody in its way takes the lock, commits its claim and its batch,
      and gives the lock back. */
  lemma OneItemRequest(w: World, cat: Catalogue, id: string, op: string, cursor: Option<nat>, remote: Remote)
    requires Quiet(w) && id !in w.requests && ClaimItems(w.db, Some(op), w.now, "uuid").Ok?
    requires ClaimItems(w.db, Some(op), w.now, "uuid").value.items.Some?
    ensures Run(w, ItemRequest(id, op, cursor, remote), cat)
         == w.(db := WorkItems(ClaimItems(w.db, Some(op), w.now, "uuid").value, cursor, 100, remote, w.now).0,
               requests := w.requests[id := Over], redis := w.redis - {LOCK_KEY})
  {
    hide WorkItems, ClaimItems, Run, Next, Claimed, Quiet;
    SixSteps(w, ItemRequest(id, op, cursor, remote), cat);
    ClaimsItems(w, cat, id, op);
    WorksAndCommits(w, cat, id, op, cursor, remote);
  }

  /** After waiting for a lock that somebody left behind. */
  lemma WaitForLock(w: World, cat: Catalogue, base: Store) returns (wait: nat)
    requires Initial(w, base)
    ensures var w' := Run(w, [Tick(wait)], cat); w' == w.(now := w.now + wait) && Quiet(w') && Initial(w', base)
  {
    wait := if Locks.Live(w.redis, LOCK_KEY, w.now) then w.redis[LOCK_KEY].deadline - w.now else 0;
    RunOne(w, Tick(wait), cat);
  }

  // ------------------------------------------------------------ a whole product request

  function ProductRequest(id: string, op: string, pages: nat, weather: Weather): seq<Action> {
    [TakeLock(id), TakeGuard(id), MakeClaim(id, ProductSync, Some(op), "uuid"), RunProducts(id, pages, weather),
     ReleaseLock(id), Commit(id)]
  }

  function AtClaim(w: World, id: string, op: string): World
    requires ClaimProducts(w.db, Some(op), w.now, "uuid").Ok?
    requires ClaimProducts(w.db, Some(op), w.now, "uuid").value.products.Some?
  {
    var db := ClaimProducts(w.db, Some(op), w.now, "uuid").value;
    var grant := Grant(Some(op), "uuid", w.now, db.products.value, false);
    Set(w.(guard := Some(id), redis := Locked(w, id)), id, Open(Tx(Some(grant), None, db, Working), true))
  }

  lemma ClaimsProducts(w: World, cat: Catalogue, id: string, op: string)
    requires Quiet(w) && id !in w.requests && ClaimProducts(w.db, Some(op), w.now, "uuid").Ok?
    requires ClaimProducts(w.db, Some(op), w.now, "uuid").value.products.Some?
    ensures Next(Next(Next(w, TakeLock(id), cat), TakeGuard(id), cat), MakeClaim(id, ProductSync, Some(op), "uuid"), cat)
         == AtClaim(w, id, op)
  {
    hide ClaimItems, ClaimProducts;
    var w1 := Next(w, TakeLock(id), cat);
    assert w1 == Set(w.(redis := Locked(w, id)), id, Waiting(true));
    var w2 := Next(w1, TakeGuard(id), cat);
    assert w2.requests == w.requests[id := Open(Tx(None, None, w.db, Working), true)];
    assert w2.requests[id := AtClaim(w, id, op).requests[id]] == AtClaim(w, id, op).requests;
  }

  lemma WorksReleasesCommits(w: World, cat: Catalogue, id: string, op: string, pages: nat, weather: Weather)
    requires Quiet(w) && ClaimProducts(w.db, Some(op), w.now, "uuid").Ok? && 1 <= pages <= 5
    requires var db := ClaimProducts(w.db, Some(op), w.now, "uuid").value; db.products.Some? && db.products.value.currentPage >= 1
    ensures Next(Next(Next(AtClaim(w, id, op), RunProducts(id, pages, weather), cat), ReleaseLock(id), cat), Commit(id), cat)
         == w.(db := WorkProducts(ClaimProducts(w.db, Some(op), w.now, "uuid").value, cat, pages, weather, w.now).0,
               requests := w.requests[id := Over], redis := w.redis - {LOCK_KEY})
  {
    hide ClaimProducts, WorkProducts;
    var w3 := AtClaim(w, id, op);
    var w4 := Next(w3, RunProducts(id, pages, weather), cat);
    var w5 := Next(w4, ReleaseLock(id), cat);
    assert w5.redis == w.redis - {LOCK_KEY};
    assert w5.requests[id := Over] == w.requests[id := Over];
  }

  /** A whole product request with nobody in its way takes the lock, commits its claim and its batch, and
      gives the lock back. */
  lemma OneProductRequest(w: World, cat: Catalogue, id: string, op: string, pages: nat, weather: Weather)
    requires Quiet(w) && id !in w.requests && ClaimProducts(w.db, Some(op), w.now, "uuid").Ok? && 1 <= pages <= 5
    requires var db := ClaimProducts(w.db, Some(op), w.now, "uuid").value; db.products.Some? && db.products.value.currentPage >= 1
    ensures Run(w, ProductRequest(id, op, pages, weather), cat)
         == w.(db := WorkProducts(ClaimProducts(w.db, Some(op), w.now, "uuid").value, cat, pages, weather, w.now).0,
               requests := w.requests[id := Over], redis := w.redis - {LOCK_KEY})
  {
    hide WorkProducts, ClaimProducts, Run, Next, AtClaim, Quiet;
    SixSteps(w, ProductRequest(id, op, pages, weather), cat);
    ClaimsProducts(w, cat, id, op);
    WorksReleasesCommits(w, cat, id, op, pages, weather);
  }
}
