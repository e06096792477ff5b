/** Page attempts without the assumption that catalogue and table agree on SKUs: what any sequence of
    attempts keeps, and what a calm one does. */
module Retries {
  import opened Common
  import opened Products
  import opened Convergence

  /** No two complete items share an id; SKUs may repeat. */
  ghost predicate DistinctIds(cat: Catalogue) {
    forall p, i, q, j ::
      Usable(cat, p, i) && Usable(cat, q, j) && Item(cat, p, i).id == Item(cat, q, j).id ==> p == q && i == j
  }

  /** What the table's own constraints guarantee. */
  ghost predicate Ground(base: Store) {
    Sound(base) && UniqueSku(base.products)
  }

  ghost predicate NewRow(base: Store, cat: Catalogue, s: Store, id: string) {
    exists p, i :: Usable(cat, p, i) && Item(cat, p, i).id == id && IsNew(base, s, Item(cat, p, i))
  }

  /** Every row is the one the table started with or the one its item leaves. */
  ghost predicate Mixed(base: Store, cat: Catalogue, s: Store) {
    Ground(s) && forall id :: IsOld(base, s, id) || NewRow(base, cat, s, id)
  }

  ghost predicate Setting(base: Store, cat: Catalogue) {
    Ground(base) && DistinctIds(cat) && Priced(base, cat, |cat.pages|)
  }

  /** Another row holds the item's SKU. */
  ghost predicate Clash(s: Store, raw: Raw) {
    exists h :: h in s.products && h != raw.id && s.products[h].sku == raw.codigo
  }

  lemma RowBefore(base: Store, cat: Catalogue, s: Store, p: int, i: int)
    requires DistinctIds(cat) && Mixed(base, cat, s) && Usable(cat, p, i)
    ensures IsOld(base, s, Item(cat, p, i).id) || IsNew(base, s, Item(cat, p, i))
  {
    var id := Item(cat, p, i).id;
    if !IsOld(base, s, id) {
      assert NewRow(base, cat, s, id);
      var q, j :| Usable(cat, q, j) && Item(cat, q, j).id == id && IsNew(base, s, Item(cat, q, j));
    }
  }

  lemma RefreshedIsTarget(base: Store, s: Store, raw: Raw)
    requires IsOld(base, s, raw.id) || IsNew(base, s, raw)
    ensures Refresh(if raw.id in s.products then s.products[raw.id] else Blank(raw), raw) == Target(base, raw)
  {
    if raw.id in base.products {
      RefreshTwice(base.products[raw.id], raw);
    } else {
      RefreshTwice(Blank(raw), raw);
    }
  }

  ghost predicate Stored(o: Outcome) {
    o.Created? || o.Updated?
  }

  /** Everything one upsert may do to a mixed table. */
  ghost predicate Effect(base: Store, s: Store, raw: Raw, fault: bool, s': Store, o: Outcome) {
    && (Stored(o) ==> Complete(raw) && !fault && !Clash(s, raw) && s'.products == s.products[raw.id := Target(base, raw)])
    && (!Stored(o) ==> s' == s)
    && (Complete(raw) && !fault ==>
          (Stored(o) <==> !Clash(s, raw)) && (o.Raised? <==> Clash(s, raw) && raw.id in s.products))
    && (Complete(raw) && fault ==> o.Raised?)
    && (!Complete(raw) ==> o.Skipped?)
  }

  lemma UpsertEffect(base: Store, cat: Catalogue, s: Store, p: int, i: int, fault: bool)
    requires Setting(base, cat) && Mixed(base, cat, s) && Valid(cat, p, i)
    ensures var (s', o) := Upsert(s, Item(cat, p, i), fault);
            Effect(base, s, Item(cat, p, i), fault, s', o)
  {
    var raw := Item(cat, p, i);
    if Complete(raw) {
      RowBefore(base, cat, s, p, i);
      RefreshedIsTarget(base, s, raw);
      assert Usable(cat, p, i);
      assert Target(base, raw).price >= 0;
      hide Refresh, Target, Mixed, DistinctIds, Priced;
    }
  }

  lemma EffectKeepsMixed(base: Store, cat: Catalogue, s: Store, p: int, i: int, fault: bool, s': Store, o: Outcome)
    requires Setting(base, cat) && Mixed(base, cat, s) && Valid(cat, p, i)
    requires Effect(base, s, Item(cat, p, i), fault, s', o)
    ensures Mixed(base, cat, s')
    ensures Stored(o) ==> Usable(cat, p, i) && IsNew(base, s', Item(cat, p, i))
    ensures forall q, j :: Usable(cat, q, j) && IsNew(base, s, Item(cat, q, j)) ==> IsNew(base, s', Item(cat, q, j))
    ensures forall id :: id != Item(cat, p, i).id ==>
              (id in s'.products <==> id in s.products) && (id in s.products ==> s'.products[id] == s.products[id])
  {
    var raw := Item(cat, p, i);
    if Stored(o) {
      assert Usable(cat, p, i) && Target(base, raw).price >= 0;
      hide DistinctIds, Priced, Refresh;
      assert Target(base, raw).sku == raw.codigo && Target(base, raw).blingId == raw.id by { TargetIsOwn(base, raw); }
      assert IsNew(base, s', raw);
      forall id ensures IsOld(base, s', id) || NewRow(base, cat, s', id) {
        assert IsOld(base, s, id) || NewRow(base, cat, s, id);
        if id != raw.id && NewRow(base, cat, s, id) {
          var q, j :| Usable(cat, q, j) && Item(cat, q, j).id == id && IsNew(base, s, Item(cat, q, j));
          assert IsNew(base, s', Item(cat, q, j));
        }
      }
    }
  }

  lemma TargetIsOwn(base: Store, raw: Raw)
    requires Sound(base)
    ensures Target(base, raw).sku == raw.codigo && Target(base, raw).blingId == raw.id
  {
  }

  // ------------------------------------------------------------- items of a page

  function StoreAfter(s: Store, cat: Catalogue, p: nat, w: Weather, n: nat): Store
    requires n <= |cat.Page(p + 1)|
  {
    RunItems(s, NO_TALLY, cat.Page(p + 1), p + 1, w, n).0
  }

  function OutcomeAt(s: Store, cat: Catalogue, p: nat, w: Weather, n: nat): Outcome
    requires n < |cat.Page(p + 1)|
  {
    Upsert(StoreAfter(s, cat, p, w, n), cat.Page(p + 1)[n], (p + 1, n) in w.faults).1
  }

  lemma StoreStep(s: Store, cat: Catalogue, p: nat, w: Weather, n: nat)
    requires n < |cat.Page(p + 1)|
    ensures Valid(cat, p, n) && Item(cat, p, n) == cat.Page(p + 1)[n]
    ensures (StoreAfter(s, cat, p, w, n + 1), OutcomeAt(s, cat, p, w, n))
         == Upsert(StoreAfter(s, cat, p, w, n), Item(cat, p, n), (p + 1, n) in w.faults)
  {
    hide Upsert;
  }

  /** A page fails exactly when one of its items raises, whatever the tally was before. */
  lemma {:induction false} FailureIffRaise(s: Store, t: Tally, cat: Catalogue, p: nat, w: Weather, n: nat)
    requires n <= |cat.Page(p + 1)|
    ensures var (s', t') := RunItems(s, t, cat.Page(p + 1), p + 1, w, n);
            && s' == StoreAfter(s, cat, p, w, n) && t'.failed >= t.failed
            && (t'.failed > t.failed <==> exists m :: 0 <= m < n && OutcomeAt(s, cat, p, w, m).Raised?)
  {
    hide Upsert;
    if n > 0 {
      FailureIffRaise(s, t, cat, p, w, n - 1);
      StoreStep(s, cat, p, w, n - 1);
      var o := OutcomeAt(s, cat, p, w, n - 1);
      var (s0, t0) := RunItems(s, t, cat.Page(p + 1), p + 1, w, n - 1);
      assert RunItems(s, t, cat.Page(p + 1), p + 1, w, n).1 == Count(t0, o);
    }
  }

  /** Mixed tables stay mixed and what is new stays new, item by item. */
  lemma {:induction false} PageStaysMixed(base: Store, cat: Catalogue, s: Store, p: nat, w: Weather, m: nat, n: nat)
    requires Setting(base, cat) && Mixed(base, cat, s) && m <= n <= |cat.Page(p + 1)|
    ensures Mixed(base, cat, StoreAfter(s, cat, p, w, n))
    ensures forall q, j :: Usable(cat, q, j) && IsNew(base, StoreAfter(s, cat, p, w, m), Item(cat, q, j))
                           ==> IsNew(base, StoreAfter(s, cat, p, w, n), Item(cat, q, j))
  {
    hide Setting, Mixed, IsNew, Upsert, Effect, Usable, StoreAfter;
    if m < n {
      PageStaysMixed(base, cat, s, p, w, m, n - 1);
      PageTurn(base, cat, s, p, w, n - 1);
    } else if n > 0 {
      PageStaysMixed(base, cat, s, p, w, n - 1, n - 1);
      PageTurn(base, cat, s, p, w, n - 1);
    } else {
      assert StoreAfter(s, cat, p, w, 0) == s by { NoItems(s, cat, p, w); }
    }
  }

  lemma NoItems(s: Store, cat: Catalogue, p: nat, w: Weather)
    ensures StoreAfter(s, cat, p, w, 0) == s
  {
  }

  lemma PageTurn(base: Store, cat: Catalogue, s: Store, p: nat, w: Weather, n: nat)
    requires Setting(base, cat) && n < |cat.Page(p + 1)| && Mixed(base, cat, StoreAfter(s, cat, p, w, n))
    ensures Valid(cat, p, n)
    ensures var t, t' := StoreAfter(s, cat, p, w, n), StoreAfter(s, cat, p, w, n + 1);
            && Mixed(base, cat, t')
            && Effect(base, t, Item(cat, p, n), (p + 1, n) in w.faults, t', OutcomeAt(s, cat, p, w, n))
            && (Stored(OutcomeAt(s, cat, p, w, n)) ==> Usable(cat, p, n) && IsNew(base, t', Item(cat, p, n)))
            && (forall q, j :: Usable(cat, q, j) && IsNew(base, t, Item(cat, q, j)) ==> IsNew(base, t', Item(cat, q, j)))
            && (forall id :: id != Item(cat, p, n).id ==>
                  (id in t'.products <==> id in t.products) && (id in t.products ==> t'.products[id] == t.products[id]))
  {
    hide Setting, Mixed, IsNew, Upsert, Effect, Usable, StoreAfter, OutcomeAt;
    StoreStep(s, cat, p, w, n);
    var t := StoreAfter(s, cat, p, w, n);
    UpsertEffect(base, cat, t, p, n, (p + 1, n) in w.faults);
    EffectKeepsMixed(base, cat, t, p, n, (p + 1, n) in w.faults, StoreAfter(s, cat, p, w, n + 1), OutcomeAt(s, cat, p, w, n));
  }

  // ------------------------------------------------------------------- attempts

  /** Where a sync stands between page attempts; page numbers start at 1. */
  datatype Sync = Sync(store: Store, page: nat, complete: bool)

  /** One page, attempted once. */
  function Attempt(q: Sync, cat: Catalogue, size: nat, w: Weather): Sync {
    if q.complete then q
    else
      var b := PageStep(StartBatch(q.store, q.page), cat, size, w);
      Sync(b.store, b.page, b.naturalEnd)
  }

  function Attempts(q: Sync, cat: Catalogue, size: nat, ws: seq<Weather>): Sync {
    if ws == [] then q else Attempt(Attempts(q, cat, size, ws[..|ws| - 1]), cat, size, ws[|ws| - 1])
  }

  function Start(base: Store): Sync {
    Sync(base, 1, false)
  }

  lemma {:induction false} AttemptsAppend(q: Sync, cat: Catalogue, size: nat, a: seq<Weather>, b: seq<Weather>)
    ensures Attempts(q, cat, size, a + b) == Attempts(Attempts(q, cat, size, a), cat, size, b)
  {
    hide Attempt;
    if b == [] {
      assert a + b == a;
    } else {
      assert (a + b)[..|a + b| - 1] == a + b[..|b| - 1];
      AttemptsAppend(q, cat, size, a, b[..|b| - 1]);
    }
  }

  lemma OneAttempt(q: Sync, cat: Catalogue, size: nat, w: Weather)
    ensures Attempts(q, cat, size, [w]) == Attempt(q, cat, size, w)
  {
    assert [w][..0] == [];
    assert Attempts(q, cat, size, []) == q;
  }

  /** What an attempt at page index p does: a page that cannot be fetched changes nothing, one with a
      raising item keeps what was stored and stays, any other one is passed. */
  lemma AttemptLaw(q: Sync, cat: Catalogue, size: nat, w: Weather, p: nat)
    requires q.page == p + 1 && !q.complete
    ensures var r := Attempt(q, cat, size, w);
            var n := |cat.Page(p + 1)|;
            if p + 1 in w.down then r == q
            else if exists m :: 0 <= m < n && OutcomeAt(q.store, cat, p, w, m).Raised?
            then r == Sync(StoreAfter(q.store, cat, p, w, n), p + 1, false)
            else r == Sync(StoreAfter(q.store, cat, p, w, n), p + 2, n < size)
  {
    FailureIffRaise(q.store, NO_TALLY, cat, p, w, |cat.Page(p + 1)|);
    hide RunItems, OutcomeAt, StoreAfter;
  }

  function Same(w: Weather, n: nat): seq<Weather> {
    seq(n, _ => w)
  }

  /** A batch over several pages is such a sequence of attempts, so every run of batches is one. */
  lemma {:induction false} BatchIsAttempts(s: Store, page: nat, cat: Catalogue, size: nat, w: Weather, n: nat) returns (m: nat)
    requires page >= 1
    ensures m <= n
    ensures var b := RunPages(StartBatch(s, page), cat, size, w, n);
            Attempts(Sync(s, page, false), cat, size, Same(w, m)) == Sync(b.store, b.page, b.naturalEnd)
    ensures !RunPages(StartBatch(s, page), cat, size, w, n).halted ==>
              RunPages(StartBatch(s, page), cat, size, w, n).tally.failed == 0
              && !RunPages(StartBatch(s, page), cat, size, w, n).naturalEnd
    ensures RunPages(StartBatch(s, page), cat, size, w, n).page >= 1
  {
    hide RunItems, Upsert, Balanced;
    if n == 0 {
      m := 0;
      assert Same(w, 0) == [];
    } else {
      m := BatchIsAttempts(s, page, cat, size, w, n - 1);
      var b := RunPages(StartBatch(s, page), cat, size, w, n - 1);
      PagesLaw(s, page, cat, size, w, n - 1);
      PagesLaw(s, page, cat, size, w, n);
      if !b.halted {
        var q := Attempts(Sync(s, page, false), cat, size, Same(w, m));
        TurnIsAttempt(b, q, cat, size, w);
        assert Same(w, m + 1)[..m] == Same(w, m) && Same(w, m + 1)[m] == w;
        m := m + 1;
      }
    }
  }

  lemma TurnIsAttempt(b: Batch, q: Sync, cat: Catalogue, size: nat, w: Weather)
    requires !b.halted && b.page >= 1 && q == Sync(b.store, b.page, false) && !b.naturalEnd
    ensures var r := PageStep(b, cat, size, w); Attempt(q, cat, size, w) == Sync(r.store, r.page, r.naturalEnd)
  {
    var p := b.page - 1;
    FailureIffRaise(b.store, b.tally, cat, p, w, |cat.Page(p + 1)|);
    FailureIffRaise(b.store, NO_TALLY, cat, p, w, |cat.Page(p + 1)|);
    hide RunItems, OutcomeAt, StoreAfter;
  }
}
