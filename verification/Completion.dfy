/** Enough requests of the protocol that nobody disturbs complete the sync: what its laws say of completed runs
    is said of something. */
module Completion {
  import opened Common
  import opened Products
  import opened Convergence
  import opened Checkpoint
  import opened Requests
  import opened Invariants
  import opened Browser
  import opened Protocol

  /** The database moves by commits alone, to what the committing transaction saw; a rollback, an exception
      or a lost lock leaves no trace of its request in it. */
  lemma OnlyCommitsWrite(w: World, a: Action, cat: Catalogue)
    ensures var w' := Next(w, a, cat);
            w'.db != w.db ==> a.Commit? && a.w in w.requests && w.requests[a.w].Open? && w'.db == w.requests[a.w].tx.local
    ensures a.Rollback? && a.w in w.requests ==>
              var w' := Next(w, a, cat); w'.requests[a.w] == Over && (w.requests[a.w].Open? ==> w'.guard.None?)
  {
    hide WorkProducts, WorkItems, ClaimOf, UpsertDetails;
  }

  /** From any state the protocol reaches between requests, calm requests of the current owner complete the
      sync: at most one more than there are full pages left. */
  lemma {:induction false} CalmRequestsComplete(w: World, cat: Catalogue, base: Store, op: string, n: nat)
    returns (actions: seq<Action>)
    requires Clean(cat, base) && Priced(base, cat, |cat.pages|) && DbInv(cat, base, w.db) && Quiet(w)
    requires op != "" && Claimable(w.db.products, op) && forall id :: id in w.requests ==> |id| <= n
    ensures var row := Run(w, actions, cat).db.products;
            row.Some? && row.value.status == Completed && row.value.totals.operation == Some(op)
    ensures |actions| <= 6 * (Distance(cat, w.db.products) + 1)
    decreases Distance(cat, w.db.products)
  {
    hide DbInv, Priced, Clean, ClaimProducts, WorkProducts, Run, Distance, Replays, Name;
    PostedProducts(cat, base, w.db, op, w.now, w.now, "uuid", CALM);
    LongName(n);
    OneProductRequest(w, cat, Name(n + 1), op, 5, CALM);
    actions := ProductRequest(Name(n + 1), op, 5, CALM);
    var w' := Run(w, actions, cat);
    if WorkProducts(ClaimProducts(w.db, Some(op), w.now, "uuid").value, cat, 5, CALM, w.now).1.hasMore {
      var rest := CalmRequestsComplete(w', cat, base, op, n + 1);
      RunAppend(w, actions, rest, cat);
      actions := actions + rest;
    }
  }

  /** So from every initial world there is a run that completes, and it leaves the table
      of one uninterrupted pass. */
  lemma SomeRunCompletes(w: World, cat: Catalogue, base: Store, op: string) returns (actions: seq<Action>)
    requires Clean(cat, base) && Priced(base, cat, |cat.pages|) && Cut(cat, 100) && Initial(w, base)
    requires op != ""
    ensures var db := Run(w, actions, cat).db;
            && db.products.Some? && db.products.value.status == Completed
            && db.products.value.lastCompletedPage >= |cat.pages|
            && db.store.products == Pass(base, cat, db.products.value.lastCompletedPage).products
  {
    InitialIsSafe(w, cat, base);
    assert Claimable(w.db.products, op);
    hide DbInv, Priced, Run, Clean, Quiet;
    var wait := WaitForLock(w, cat, base);
    var rest := CalmRequestsComplete(Run(w, [Tick(wait)], cat), cat, base, op, 0);
    actions := [Tick(wait)] + rest;
    RunAppend(w, [Tick(wait)], rest, cat);
    CompletedRunsConverge(w, actions, cat, base);
  }
}
