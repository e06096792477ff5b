/** SKUs that moved upstream: when one clean pass meets a raising item, and when no retry ever helps. */
module Deadlock {
  import opened Common
  import opened Products
  import opened Convergence
  import opened Retries

  // ------------------------------------------------------------ never completing

  /** Rows that hold each other's SKUs: every item of the first k + 1 pages that would update one of them
      wants a SKU that the table had given to another of them, and one such item is on page index k.
      Its simplest forms are two traded SKUs, a longer cycle, and a holder that is not in the catalogue. */
  ghost predicate Stuck(base: Store, cat: Catalogue, k: nat, rows: set<string>) {
    && (forall b :: b in rows ==> b in base.products)
    && (forall p, i :: Usable(cat, p, i) && p <= k && Item(cat, p, i).id in rows ==> HeldWithin(base, rows, Item(cat, p, i)))
    && (exists i :: Usable(cat, k, i) && Item(cat, k, i).id in rows)
  }

  ghost predicate HeldWithin(base: Store, rows: set<string>, raw: Raw) {
    exists h :: h in rows && h != raw.id && h in base.products && base.products[h].sku == raw.codigo
  }

  ghost predicate Frozen(base: Store, s: Store, rows: set<string>) {
    forall b :: b in rows ==> b in base.products && b in s.products && s.products[b] == base.products[b]
  }

  lemma FrozenStep(base: Store, cat: Catalogue, k: nat, rows: set<string>, s: Store, p: int, i: int, fault: bool)
    requires Sound(base) && Stuck(base, cat, k, rows) && Frozen(base, s, rows) && Valid(cat, p, i) && p <= k
    ensures var (s', o) := Upsert(s, Item(cat, p, i), fault);
            Frozen(base, s', rows) && (Usable(cat, p, i) && Item(cat, p, i).id in rows ==> o.Raised?)
  {
    var raw := Item(cat, p, i);
    if raw.id in rows && Complete(raw) {
      assert Usable(cat, p, i);
      var h :| h in rows && h != raw.id && h in base.products && base.products[h].sku == raw.codigo;
      assert s.products[h].sku == raw.codigo;
    }
  }

  lemma {:induction false} FrozenPage(base: Store, cat: Catalogue, k: nat, rows: set<string>, s: Store, p: nat, w: Weather, n: nat)
    requires Sound(base) && Stuck(base, cat, k, rows) && Frozen(base, s, rows) && p <= k && n <= |cat.Page(p + 1)|
    ensures Frozen(base, StoreAfter(s, cat, p, w, n), rows)
    ensures forall m :: 0 <= m < n && Usable(cat, p, m) && Item(cat, p, m).id in rows ==> OutcomeAt(s, cat, p, w, m).Raised?
  {
    hide Stuck, Frozen, Upsert, StoreAfter, OutcomeAt, Usable;
    if n == 0 {
      NoItems(s, cat, p, w);
    } else {
      FrozenPage(base, cat, k, rows, s, p, w, n - 1);
      StoreStep(s, cat, p, w, n - 1);
      FrozenStep(base, cat, k, rows, StoreAfter(s, cat, p, w, n - 1), p, n - 1, (p + 1, n - 1) in w.faults);
    }
  }

  /** With such rows no sequence of attempts, in any weather, ever gets past their page. */
  lemma {:induction false} NeverPasses(base: Store, cat: Catalogue, size: nat, k: nat, rows: set<string>, ws: seq<Weather>)
    requires Sound(base) && Cut(cat, size) && Stuck(base, cat, k, rows)
    ensures var q := Attempts(Start(base), cat, size, ws);
            !q.complete && 1 <= q.page <= k + 1 && Frozen(base, q.store, rows)
  {
    hide Stuck, Frozen, Attempt, StoreAfter, OutcomeAt;
    if ws == [] {
      assert Frozen(base, base, rows) by { BaseIsFrozen(base, cat, k, rows); }
    } else {
      NeverPasses(base, cat, size, k, rows, ws[..|ws| - 1]);
      var q := Attempts(Start(base), cat, size, ws[..|ws| - 1]);
      StuckAttempt(base, cat, size, k, rows, q, ws[|ws| - 1]);
    }
  }

  lemma BaseIsFrozen(base: Store, cat: Catalogue, k: nat, rows: set<string>)
    requires Stuck(base, cat, k, rows)
    ensures Frozen(base, base, rows)
  {
  }

  lemma StuckAttempt(base: Store, cat: Catalogue, size: nat, k: nat, rows: set<string>, q: Sync, w: Weather)
    requires Sound(base) && Cut(cat, size) && Stuck(base, cat, k, rows)
    requires !q.complete && 1 <= q.page <= k + 1 && Frozen(base, q.store, rows)
    ensures var r := Attempt(q, cat, size, w);
            !r.complete && 1 <= r.page <= k + 1 && Frozen(base, r.store, rows)
  {
    var p := q.page - 1;
    AttemptLaw(q, cat, size, w, p);
    FrozenPage(base, cat, k, rows, q.store, p, w, |cat.Page(p + 1)|);
    var i :| Usable(cat, k, i) && Item(cat, k, i).id in rows;
    hide Stuck, Frozen, Attempt, StoreAfter, OutcomeAt;
  }

  /** A row that no item of these pages updates keeps the SKU it holds: an item that wants it never passes. */
  lemma OutsideHolderIsStuck(base: Store, cat: Catalogue, k: nat, i: nat, h: string)
    requires DistinctIds(cat) && Usable(cat, k, i) && Item(cat, k, i).id in base.products
    requires h in base.products && h != Item(cat, k, i).id && base.products[h].sku == Item(cat, k, i).codigo
    requires forall q, j :: Usable(cat, q, j) && q <= k ==> Item(cat, q, j).id != h
    ensures Stuck(base, cat, k, {Item(cat, k, i).id, h})
  {
  }

  /** Two products that traded SKUs since the last sync stop it for good, whatever the table and the
      catalogue look like otherwise. */
  lemma SwappedSkusNeverComplete(base: Store, cat: Catalogue, size: nat, p: nat, i: nat, q: nat, j: nat, ws: seq<Weather>)
    requires Sound(base) && Cut(cat, size) && DistinctIds(cat) && Usable(cat, p, i) && Usable(cat, q, j)
    requires var a, b := Item(cat, p, i), Item(cat, q, j);
             a.id != b.id && a.id in base.products && b.id in base.products
             && base.products[b.id].sku == a.codigo && base.products[a.id].sku == b.codigo
    ensures !Attempts(Start(base), cat, size, ws).complete
  {
    var rows := {Item(cat, p, i).id, Item(cat, q, j).id};
    var k := if p <= q then p else q;
    hide DistinctIds, Attempts;
    assert Stuck(base, cat, k, rows) by {
      forall r, m | Usable(cat, r, m) && r <= k && Item(cat, r, m).id in rows
        ensures HeldWithin(base, rows, Item(cat, r, m))
      {
        SameId(cat, r, m, p, i);
        SameId(cat, r, m, q, j);
      }
      assert Usable(cat, k, if p <= q then i else j);
    }
    NeverPasses(base, cat, size, k, rows, ws);
  }

  lemma SameId(cat: Catalogue, r: int, m: int, p: int, i: int)
    requires DistinctIds(cat) && Usable(cat, r, m) && Usable(cat, p, i)
    ensures Item(cat, r, m).id == Item(cat, p, i).id ==> Item(cat, r, m) == Item(cat, p, i)
  {
  }

  // --------------------------------------------------------- and otherwise completing

  ghost predicate DoneBefore(base: Store, cat: Catalogue, p: nat, s: Store) {
    forall r, i :: Usable(cat, r, i) && r < p && Item(cat, r, i).id in base.products ==> IsNew(base, s, Item(cat, r, i))
  }

  /** In a calm attempt only a known item raises, one that still has its old row while another row has
      kept, since the start, the SKU it wants. */
  lemma RaiseHasHolder(base: Store, cat: Catalogue, s: Store, p: nat, m: nat) returns (h: string)
    requires Setting(base, cat) && Distinct(cat) && Mixed(base, cat, s) && m < |cat.Page(p + 1)|
    requires OutcomeAt(s, cat, p, CALM, m).Raised?
    ensures Usable(cat, p, m) && Item(cat, p, m).id in base.products
    ensures !IsNew(base, StoreAfter(s, cat, p, CALM, m), Item(cat, p, m))
    ensures h in base.products && h != Item(cat, p, m).id && base.products[h].sku == Item(cat, p, m).codigo
    ensures forall q, j :: Usable(cat, q, j) && Item(cat, q, j).id == h ==>
              !IsNew(base, StoreAfter(s, cat, p, CALM, m), Item(cat, q, j))
  {
    PageStaysMixed(base, cat, s, p, CALM, m, m);
    PageTurn(base, cat, s, p, CALM, m);
    var t, raw := StoreAfter(s, cat, p, CALM, m), Item(cat, p, m);
    assert Clash(t, raw) && raw.id in t.products && Usable(cat, p, m);
    hide StoreAfter, OutcomeAt, Priced;
    h :| h in t.products && h != raw.id && t.products[h].sku == raw.codigo;
    TargetSku(base, raw);
    assert !IsNew(base, t, raw);
    RowBefore(base, cat, t, p, m);
    forall q, j | Usable(cat, q, j) && Item(cat, q, j).id == h ensures !IsNew(base, t, Item(cat, q, j)) {
      TargetSku(base, Item(cat, q, j));
    }
    assert IsOld(base, t, h) || NewRow(base, cat, t, h);
  }

  lemma TargetSku(base: Store, raw: Raw)
    ensures Target(base, raw).sku == raw.codigo
  {
  }

  /** A known item that no row stands against is stored by a calm attempt. */
  lemma CalmKnownItem(base: Store, cat: Catalogue, s: Store, p: nat, m: nat)
    requires Setting(base, cat) && Mixed(base, cat, s) && m < |cat.Page(p + 1)|
    requires Usable(cat, p, m) && Item(cat, p, m).id in base.products && !OutcomeAt(s, cat, p, CALM, m).Raised?
    ensures IsNew(base, StoreAfter(s, cat, p, CALM, m + 1), Item(cat, p, m))
  {
    PageStaysMixed(base, cat, s, p, CALM, m, m);
    PageTurn(base, cat, s, p, CALM, m);
    var t, raw := StoreAfter(s, cat, p, CALM, m), Item(cat, p, m);
    hide StoreAfter, OutcomeAt, Priced, Effect;
    RowBefore(base, cat, t, p, m);
    assert raw.id in t.products;
    KnownOutcome(base, t, raw, StoreAfter(s, cat, p, CALM, m + 1), OutcomeAt(s, cat, p, CALM, m));
  }

  lemma KnownOutcome(base: Store, t: Store, raw: Raw, t': Store, o: Outcome)
    requires Effect(base, t, raw, false, t', o) && Complete(raw) && raw.id in t.products && !o.Raised?
    ensures Stored(o)
  {
  }

  /** Which items of a page already have their final row. */
  ghost function NewOn(base: Store, cat: Catalogue, p: nat, s: Store): set<int> {
    set i | 0 <= i < |cat.Page(p + 1)| && Usable(cat, p, i) && IsNew(base, s, Item(cat, p, i))
  }

  /** The rows of the start that no item of the first p + 1 pages has moved to its final form. */
  ghost function Unmoved(base: Store, cat: Catalogue, p: nat, s: Store): set<string> {
    set id | id in base.products && !MovedBy(base, cat, p, s, id)
  }

  ghost predicate MovedBy(base: Store, cat: Catalogue, p: nat, s: Store, id: string) {
    exists r, i :: Usable(cat, r, i) && r <= p && Item(cat, r, i).id == id && IsNew(base, s, Item(cat, r, i))
  }

  /** A calm attempt that fails without moving a row has met rows that are stuck. */
  lemma FailingAttempt(base: Store, cat: Catalogue, s: Store, p: nat, m: nat)
    requires Setting(base, cat) && Distinct(cat) && Mixed(base, cat, s) && DoneBefore(base, cat, p, s)
    requires m < |cat.Page(p + 1)| && OutcomeAt(s, cat, p, CALM, m).Raised?
    requires NewOn(base, cat, p, StoreAfter(s, cat, p, CALM, |cat.Page(p + 1)|)) <= NewOn(base, cat, p, s)
    ensures Stuck(base, cat, p, Unmoved(base, cat, p, StoreAfter(s, cat, p, CALM, |cat.Page(p + 1)|)))
  {
    hide Setting, Distinct, Mixed, StoreAfter, OutcomeAt, IsNew;
    var end := StoreAfter(s, cat, p, CALM, |cat.Page(p + 1)|);
    var rows := Unmoved(base, cat, p, end);
    forall r, i | Usable(cat, r, i) && r <= p && Item(cat, r, i).id in rows
      ensures HeldWithin(base, rows, Item(cat, r, i))
    {
      StuckItem(base, cat, s, p, r, i);
    }
    var h := RaiseHasHolder(base, cat, s, p, m);
    StillOld(base, cat, s, p, m, p, m);
    if MovedBy(base, cat, p, end, Item(cat, p, m).id) {
      var r, i :| Usable(cat, r, i) && r <= p && Item(cat, r, i).id == Item(cat, p, m).id && IsNew(base, end, Item(cat, r, i));
      OnePosition(base, cat, r, i, p, m);
    }
    assert Item(cat, p, m).id in rows;
  }

  lemma OnePosition(base: Store, cat: Catalogue, r: int, i: int, p: int, m: int)
    requires Setting(base, cat) && Usable(cat, r, i) && Usable(cat, p, m) && Item(cat, r, i).id == Item(cat, p, m).id
    ensures r == p && i == m
  {
  }

  /** An item that was not final when some turn of the attempt began is not final afterwards. */
  lemma StillOld(base: Store, cat: Catalogue, s: Store, p: nat, m: nat, r: int, i: int)
    requires Setting(base, cat) && Mixed(base, cat, s) && DoneBefore(base, cat, p, s) && m <= |cat.Page(p + 1)|
    requires NewOn(base, cat, p, StoreAfter(s, cat, p, CALM, |cat.Page(p + 1)|)) <= NewOn(base, cat, p, s)
    requires Usable(cat, r, i) && r <= p && Item(cat, r, i).id in base.products
    requires !IsNew(base, StoreAfter(s, cat, p, CALM, m), Item(cat, r, i))
    ensures !IsNew(base, StoreAfter(s, cat, p, CALM, |cat.Page(p + 1)|), Item(cat, r, i))
  {
    hide Setting, Mixed, StoreAfter, IsNew;
    PageStaysMixed(base, cat, s, p, CALM, 0, m);
    NoItems(s, cat, p, CALM);
    var end := StoreAfter(s, cat, p, CALM, |cat.Page(p + 1)|);
    assert r == p;
    assert IsNew(base, end, Item(cat, r, i)) ==> i in NewOn(base, cat, p, end);
  }

  lemma StuckItem(base: Store, cat: Catalogue, s: Store, p: nat, r: int, i: int)
    requires Setting(base, cat) && Distinct(cat) && Mixed(base, cat, s) && DoneBefore(base, cat, p, s)
    requires NewOn(base, cat, p, StoreAfter(s, cat, p, CALM, |cat.Page(p + 1)|)) <= NewOn(base, cat, p, s)
    requires Usable(cat, r, i) && r <= p
    requires Item(cat, r, i).id in Unmoved(base, cat, p, StoreAfter(s, cat, p, CALM, |cat.Page(p + 1)|))
    ensures HeldWithin(base, Unmoved(base, cat, p, StoreAfter(s, cat, p, CALM, |cat.Page(p + 1)|)), Item(cat, r, i))
  {
    hide Setting, Distinct, Mixed, StoreAfter, OutcomeAt, IsNew;
    var n := |cat.Page(p + 1)|;
    var end := StoreAfter(s, cat, p, CALM, n);
    assert !IsNew(base, end, Item(cat, r, i));
    PageStaysMixed(base, cat, s, p, CALM, 0, n);
    NoItems(s, cat, p, CALM);
    assert r == p;
    PageStaysMixed(base, cat, s, p, CALM, i + 1, n);
    if !OutcomeAt(s, cat, p, CALM, i).Raised? {
      CalmKnownItem(base, cat, s, p, i);
    }
    var h := RaiseHasHolder(base, cat, s, p, i);
    if MovedBy(base, cat, p, end, h) {
      var q, j :| Usable(cat, q, j) && q <= p && Item(cat, q, j).id == h && IsNew(base, end, Item(cat, q, j));
      StillOld(base, cat, s, p, i, q, j);
    }
    assert h in Unmoved(base, cat, p, end);
  }

  lemma PassedPageIsDone(base: Store, cat: Catalogue, s: Store, p: nat)
    requires Setting(base, cat) && Mixed(base, cat, s) && DoneBefore(base, cat, p, s)
    requires forall m :: 0 <= m < |cat.Page(p + 1)| ==> !OutcomeAt(s, cat, p, CALM, m).Raised?
    ensures DoneBefore(base, cat, p + 1, StoreAfter(s, cat, p, CALM, |cat.Page(p + 1)|))
  {
    hide Setting, Mixed, StoreAfter, OutcomeAt, IsNew;
    var n := |cat.Page(p + 1)|;
    PageStaysMixed(base, cat, s, p, CALM, 0, n);
    NoItems(s, cat, p, CALM);
    forall r, i | Usable(cat, r, i) && r < p + 1 && Item(cat, r, i).id in base.products
      ensures IsNew(base, StoreAfter(s, cat, p, CALM, n), Item(cat, r, i))
    {
      if r == p {
        CalmKnownItem(base, cat, s, p, i);
        PageStaysMixed(base, cat, s, p, CALM, i + 1, n);
      }
    }
  }

  lemma NewOnIsBounded(base: Store, cat: Catalogue, p: nat, s: Store)
    ensures |NewOn(base, cat, p, s)| <= |cat.Page(p + 1)|
  {
    Subset(NewOn(base, cat, p, s), Below(|cat.Page(p + 1)|));
  }

  ghost function Below(n: nat): (r: set<int>)
    ensures |r| == n && forall i :: i in r <==> 0 <= i < n
  {
    if n == 0 then {} else Below(n - 1) + {n - 1}
  }

  lemma Subset(a: set<int>, b: set<int>)
    requires a <= b
    ensures |a| <= |b| && (a != b ==> |a| < |b|)
  {
    var rest := b - a;
    assert b == a + rest && a * rest == {};
    if a != b {
      assert rest != {};
    }
  }

  lemma SameAppend(w: Weather, m: nat, n: nat)
    ensures Same(w, m) + Same(w, n) == Same(w, m + n) && Same(w, 1) == [w]
  {
  }

  /** Calm attempts get a page done that nothing is stuck on. */
  lemma {:induction false} PagePasses(base: Store, cat: Catalogue, size: nat, p: nat, s: Store) returns (n: nat)
    requires Setting(base, cat) && Distinct(cat) && Mixed(base, cat, s) && DoneBefore(base, cat, p, s)
    requires forall rows :: !Stuck(base, cat, p, rows)
    ensures var r := Attempts(Sync(s, p + 1, false), cat, size, Same(CALM, n));
            && r.page == p + 2 && (r.complete <==> |cat.Page(p + 1)| < size)
            && Mixed(base, cat, r.store) && DoneBefore(base, cat, p + 1, r.store)
    decreases |cat.Page(p + 1)| - |NewOn(base, cat, p, s)|
  {
    hide Setting, Distinct, Mixed, StoreAfter, OutcomeAt, IsNew, Attempts, Attempt, Stuck, DoneBefore, NewOn, Same;
    var k := |cat.Page(p + 1)|;
    var q := Sync(s, p + 1, false);
    var s' := StoreAfter(s, cat, p, CALM, k);
    AttemptLaw(q, cat, size, CALM, p);
    OneAttempt(q, cat, size, CALM);
    SameAppend(CALM, 1, 0);
    PageStaysMixed(base, cat, s, p, CALM, 0, k);
    if m: nat :| m < k && OutcomeAt(s, cat, p, CALM, m).Raised? {
      if NewOn(base, cat, p, s') <= NewOn(base, cat, p, s) {
        FailingAttempt(base, cat, s, p, m);
      }
      NewGrows(base, cat, s, p);
      StillDone(base, cat, s, p);
      n := PagePasses(base, cat, size, p, s');
      SameAppend(CALM, 1, n);
      AttemptsAppend(q, cat, size, [CALM], Same(CALM, n));
      n := n + 1;
    } else {
      PassedPageIsDone(base, cat, s, p);
      n := 1;
    }
  }

  lemma NewGrows(base: Store, cat: Catalogue, s: Store, p: nat)
    requires Setting(base, cat) && Mixed(base, cat, s)
    ensures var s' := StoreAfter(s, cat, p, CALM, |cat.Page(p + 1)|);
            && NewOn(base, cat, p, s) <= NewOn(base, cat, p, s') && |NewOn(base, cat, p, s')| <= |cat.Page(p + 1)|
            && (!(NewOn(base, cat, p, s') <= NewOn(base, cat, p, s)) ==>
                  |NewOn(base, cat, p, s)| < |NewOn(base, cat, p, s')|)
  {
    hide Setting, Mixed, StoreAfter, IsNew, Usable;
    var s' := StoreAfter(s, cat, p, CALM, |cat.Page(p + 1)|);
    PageStaysMixed(base, cat, s, p, CALM, 0, |cat.Page(p + 1)|);
    NoItems(s, cat, p, CALM);
    NewOnIsBounded(base, cat, p, s');
    Subset(NewOn(base, cat, p, s), NewOn(base, cat, p, s'));
  }

  lemma StillDone(base: Store, cat: Catalogue, s: Store, p: nat)
    requires Setting(base, cat) && Mixed(base, cat, s) && DoneBefore(base, cat, p, s)
    ensures DoneBefore(base, cat, p, StoreAfter(s, cat, p, CALM, |cat.Page(p + 1)|))
  {
    hide Setting, Mixed, StoreAfter, IsNew;
    PageStaysMixed(base, cat, s, p, CALM, 0, |cat.Page(p + 1)|);
    NoItems(s, cat, p, CALM);
  }

  lemma {:induction false} StaysComplete(q: Sync, cat: Catalogue, size: nat, ws: seq<Weather>)
    requires q.complete
    ensures Attempts(q, cat, size, ws) == q
  {
    if ws != [] {
      StaysComplete(q, cat, size, ws[..|ws| - 1]);
    }
  }

  lemma {:induction false} AllPagesPass(base: Store, cat: Catalogue, size: nat, p: nat, s: Store) returns (n: nat)
    requires Setting(base, cat) && Distinct(cat) && Mixed(base, cat, s) && DoneBefore(base, cat, p, s) && size > 0
    requires p <= |cat.pages| && forall k: nat, rows :: !Stuck(base, cat, k, rows)
    ensures Attempts(Sync(s, p + 1, false), cat, size, Same(CALM, n)).complete
    decreases |cat.pages| - p
  {
    hide Setting, Distinct, Mixed, Attempts, Stuck, DoneBefore, Same;
    n := PagePasses(base, cat, size, p, s);
    var r := Attempts(Sync(s, p + 1, false), cat, size, Same(CALM, n));
    if !r.complete {
      var more := AllPagesPass(base, cat, size, p + 1, r.store);
      AttemptsAppend(Sync(s, p + 1, false), cat, size, Same(CALM, n), Same(CALM, more));
      SameAppend(CALM, n, more);
      n := n + more;
    }
  }

  /** Whether a sync can complete at all, for every table and every catalogue with distinct ids and SKUs:
      calm retries complete it exactly when no rows are stuck, and stuck rows stop every other run too. */
  lemma CompletesIff(base: Store, cat: Catalogue, size: nat)
    requires Setting(base, cat) && Distinct(cat) && Cut(cat, size)
    ensures (exists n: nat :: Attempts(Start(base), cat, size, Same(CALM, n)).complete)
       <==> (forall k: nat, rows :: !Stuck(base, cat, k, rows))
    ensures (exists ws :: Attempts(Start(base), cat, size, ws).complete)
       <==> (forall k: nat, rows :: !Stuck(base, cat, k, rows))
  {
    if k: nat, rows :| Stuck(base, cat, k, rows) {
      forall ws ensures !Attempts(Start(base), cat, size, ws).complete {
        NeverPasses(base, cat, size, k, rows, ws);
      }
    } else {
      assert Mixed(base, cat, base) && DoneBefore(base, cat, 0, base);
      var n := AllPagesPass(base, cat, size, 0, base);
      assert Attempts(Start(base), cat, size, Same(CALM, n)).complete;
    }
  }

  // ------------------------------------------------------- one clean pass

  /** The clean pass just before item n of page index p. */
  function StateAt(base: Store, cat: Catalogue, p: nat, n: nat): Store
    requires n <= |cat.Page(p + 1)|
  {
    StoreAfter(Pass(base, cat, p), cat, p, CALM, n)
  }

  lemma {:induction false} PassStaysMixed(base: Store, cat: Catalogue, p: nat)
    requires Setting(base, cat)
    ensures Mixed(base, cat, Pass(base, cat, p))
  {
    hide Setting, Mixed, RunItems;
    if p == 0 {
      assert Mixed(base, cat, base) by { BaseIsMixed(base, cat); }
    } else {
      PassStaysMixed(base, cat, p - 1);
      PageStaysMixed(base, cat, Pass(base, cat, p - 1), p - 1, CALM, 0, |cat.Page(p)|);
      assert StoreAfter(Pass(base, cat, p - 1), cat, p - 1, CALM, |cat.Page(p)|) == Pass(base, cat, p);
    }
  }

  lemma BaseIsMixed(base: Store, cat: Catalogue)
    requires Setting(base, cat)
    ensures Mixed(base, cat, base)
  {
  }

  /** No item before position (p, n) carries this id. */
  ghost predicate NotBefore(cat: Catalogue, p: int, n: int, id: string) {
    forall q, j :: Usable(cat, q, j) && Item(cat, q, j).id == id ==> !Before(q, j, p, n)
  }

  /** A row none of the earlier items carries is as it was at the start. */
  lemma {:induction false} Untouched(base: Store, cat: Catalogue, p: nat, n: nat, id: string)
    requires Setting(base, cat) && n <= |cat.Page(p + 1)| && NotBefore(cat, p, n, id)
    ensures IsOld(base, StateAt(base, cat, p, n), id)
    decreases p, n
  {
    hide Setting, Mixed, RunItems, Effect;
    if n > 0 {
      Untouched(base, cat, p, n - 1, id);
      PassStaysMixed(base, cat, p);
      PageStaysMixed(base, cat, Pass(base, cat, p), p, CALM, n - 1, n - 1);
      PageTurn(base, cat, Pass(base, cat, p), p, CALM, n - 1);
      UnstoredKeeps(base, StateAt(base, cat, p, n - 1), Item(cat, p, n - 1), StateAt(base, cat, p, n),
                    OutcomeAt(Pass(base, cat, p), cat, p, CALM, n - 1));
    } else {
      NoItems(Pass(base, cat, p), cat, p, CALM);
      if p > 0 {
        Untouched(base, cat, p - 1, |cat.Page(p)|, id);
        assert StateAt(base, cat, p - 1, |cat.Page(p)|) == Pass(base, cat, p);
      }
    }
  }

  lemma UnstoredKeeps(base: Store, t: Store, raw: Raw, t': Store, o: Outcome)
    requires Effect(base, t, raw, false, t', o)
    ensures !Complete(raw) ==> t' == t
  {
  }

  /** A known item whose SKU another row held at the start, a row that no earlier item updates. */
  ghost predicate HeldAgainst(base: Store, cat: Catalogue, p: nat, i: nat, h: string) {
    && Usable(cat, p, i) && Item(cat, p, i).id in base.products
    && h in base.products && h != Item(cat, p, i).id && base.products[h].sku == Item(cat, p, i).codigo
    && NotBefore(cat, p, i, h)
  }

  ghost predicate Held(base: Store, cat: Catalogue, p: nat, i: nat) {
    exists h :: HeldAgainst(base, cat, p, i, h)
  }

  ghost predicate PassRaises(base: Store, cat: Catalogue, p: nat, i: nat) {
    i < |cat.Page(p + 1)| && OutcomeAt(Pass(base, cat, p), cat, p, CALM, i).Raised?
  }

  lemma HeldRaises(base: Store, cat: Catalogue, p: nat, i: nat, h: string)
    requires Setting(base, cat) && HeldAgainst(base, cat, p, i, h)
    ensures PassRaises(base, cat, p, i)
  {
    hide Setting, Mixed, RunItems;
    var raw := Item(cat, p, i);
    Untouched(base, cat, p, i, h);
    forall q, j | Usable(cat, q, j) && Item(cat, q, j).id == raw.id ensures !Before(q, j, p, i) {
      OnePosition(base, cat, q, j, p, i);
    }
    Untouched(base, cat, p, i, raw.id);
    PassStaysMixed(base, cat, p);
    PageStaysMixed(base, cat, Pass(base, cat, p), p, CALM, i, i);
    PageTurn(base, cat, Pass(base, cat, p), p, CALM, i);
    assert Clash(StateAt(base, cat, p, i), raw);
  }

  /** As long as no item is held against, every known item so far has its final row. */
  lemma {:induction false} UnheldAreStored(base: Store, cat: Catalogue, p: nat, n: nat)
    requires Setting(base, cat) && Distinct(cat) && n <= |cat.Page(p + 1)|
    requires forall q: nat, j: nat :: Before(q, j, p, n) ==> !Held(base, cat, q, j)
    ensures forall q, j :: Usable(cat, q, j) && Before(q, j, p, n) && Item(cat, q, j).id in base.products ==>
              IsNew(base, StateAt(base, cat, p, n), Item(cat, q, j))
    decreases p, n
  {
    hide Setting, Distinct, Mixed, RunItems, Effect, IsNew, Held;
    PassStaysMixed(base, cat, p);
    if n > 0 {
      UnheldAreStored(base, cat, p, n - 1);
      PageStaysMixed(base, cat, Pass(base, cat, p), p, CALM, n - 1, n);
      assert Before(p, n - 1, p, n);
      UnheldDoesNotRaise(base, cat, p, n - 1);
      if Usable(cat, p, n - 1) && Item(cat, p, n - 1).id in base.products {
        CalmKnownItem(base, cat, Pass(base, cat, p), p, n - 1);
      }
    } else {
      NoItems(Pass(base, cat, p), cat, p, CALM);
      if p > 0 {
        UnheldAreStored(base, cat, p - 1, |cat.Page(p)|);
        assert StateAt(base, cat, p - 1, |cat.Page(p)|) == Pass(base, cat, p);
      }
    }
  }

  lemma RaiseMeansHeld(base: Store, cat: Catalogue, p: nat, i: nat)
    requires Setting(base, cat) && Distinct(cat) && PassRaises(base, cat, p, i)
    requires forall q, j :: Usable(cat, q, j) && Before(q, j, p, i) && Item(cat, q, j).id in base.products ==>
               IsNew(base, StateAt(base, cat, p, i), Item(cat, q, j))
    ensures Held(base, cat, p, i)
  {
    hide Setting, Distinct, Mixed, IsNew;
    PassStaysMixed(base, cat, p);
    var h := RaiseHasHolder(base, cat, Pass(base, cat, p), p, i);
    assert NotBefore(cat, p, i, h);
    assert HeldAgainst(base, cat, p, i, h);
  }

  lemma UnheldDoesNotRaise(base: Store, cat: Catalogue, p: nat, i: nat)
    requires Setting(base, cat) && Distinct(cat) && i < |cat.Page(p + 1)| && !Held(base, cat, p, i)
    requires forall q, j :: Usable(cat, q, j) && Before(q, j, p, i) && Item(cat, q, j).id in base.products ==>
               IsNew(base, StateAt(base, cat, p, i), Item(cat, q, j))
    ensures !PassRaises(base, cat, p, i)
  {
    if PassRaises(base, cat, p, i) { RaiseMeansHeld(base, cat, p, i); }
  }

  /** Exactly when a clean pass over the first k pages meets an item that raises. */
  lemma CleanPassRaisesIff(base: Store, cat: Catalogue, k: nat)
    requires Setting(base, cat) && Distinct(cat)
    ensures (exists p: nat, i: nat :: p < k && PassRaises(base, cat, p, i))
       <==> (exists p: nat, i: nat :: p < k && Held(base, cat, p, i))
  {
    hide Setting, Distinct, PassRaises;
    if p: nat, i: nat :| p < k && Held(base, cat, p, i) {
      var h :| HeldAgainst(base, cat, p, i, h);
      HeldRaises(base, cat, p, i, h);
    } else {
      forall p: nat, i: nat | p < k ensures !PassRaises(base, cat, p, i) {
        if i < |cat.Page(p + 1)| {
          UnheldAreStored(base, cat, p, i);
          UnheldDoesNotRaise(base, cat, p, i);
        } else {
          assert !PassRaises(base, cat, p, i) by { NoSuchItem(base, cat, p, i); }
        }
      }
    }
  }

  lemma NoSuchItem(base: Store, cat: Catalogue, p: nat, i: nat)
    requires i >= |cat.Page(p + 1)|
    ensures !PassRaises(base, cat, p, i)
  {
  }
}
