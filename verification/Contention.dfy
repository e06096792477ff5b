/** SKUs that repeat within the catalogue: when the order of failures and retries decides which of two
    products gets the SKU, and when it does not. The table starts empty. */
module Contention {
  import opened Common
  import opened Products
  import opened Convergence
  import opened Retries
  import opened Deadlock

  const EMPTY := Store(map[], map[])

  /** No item of an earlier page carries this SKU. */
  ghost predicate NoEarlier(cat: Catalogue, p: int, sku: string) {
    forall q, m :: Usable(cat, q, m) && q < p ==> Item(cat, q, m).codigo != sku
  }

  /** Two items of one page share a SKU that no earlier page carries. */
  ghost predicate Contested(cat: Catalogue, p: nat, i: nat, j: nat) {
    && i < j && Usable(cat, p, i) && Usable(cat, p, j) && Item(cat, p, i).codigo == Item(cat, p, j).codigo
    && NoEarlier(cat, p, Item(cat, p, i).codigo)
  }

  ghost predicate Uncontested(cat: Catalogue) {
    forall p: nat, i: nat, j: nat :: !Contested(cat, p, i, j)
  }

  // ------------------------------------------------------ tables grown from nothing

  /** Every row belongs to the one item that carries its id. */
  lemma RowIsItems(cat: Catalogue, s: Store, id: string) returns (q: int, m: int)
    requires Mixed(EMPTY, cat, s) && id in s.products
    ensures Usable(cat, q, m) && Item(cat, q, m).id == id && IsNew(EMPTY, s, Item(cat, q, m))
    ensures s.products[id].sku == Item(cat, q, m).codigo
  {
    assert NewRow(EMPTY, cat, s, id);
    q, m :| Usable(cat, q, m) && Item(cat, q, m).id == id && IsNew(EMPTY, s, Item(cat, q, m));
    TargetSku(EMPTY, Item(cat, q, m));
  }

  lemma OwnRow(cat: Catalogue, s: Store, p: int, i: int)
    requires Setting(EMPTY, cat) && Mixed(EMPTY, cat, s) && Usable(cat, p, i) && Item(cat, p, i).id in s.products
    ensures s.products[Item(cat, p, i).id].sku == Item(cat, p, i).codigo
  {
    RowBefore(EMPTY, cat, s, p, i);
    TargetSku(EMPTY, Item(cat, p, i));
  }

  /** Without faults nothing raises on such a table. */
  lemma CalmNeverRaises(cat: Catalogue, s: Store, p: nat, m: nat)
    requires Setting(EMPTY, cat) && Mixed(EMPTY, cat, s) && m < |cat.Page(p + 1)|
    ensures !OutcomeAt(s, cat, p, CALM, m).Raised?
  {
    PageStaysMixed(EMPTY, cat, s, p, CALM, m, m);
    PageTurn(EMPTY, cat, s, p, CALM, m);
    var t, raw := StoreAfter(s, cat, p, CALM, m), Item(cat, p, m);
    hide StoreAfter, OutcomeAt, Setting;
    if Complete(raw) && raw.id in t.products {
      assert Usable(cat, p, m);
      OwnRow(cat, t, p, m);
      assert !Clash(t, raw);
    }
  }

  /** A SKU once taken stays taken. */
  lemma SkuStays(cat: Catalogue, s: Store, p: int, i: int, fault: bool, s': Store, o: Outcome, sku: string)
    requires Setting(EMPTY, cat) && Mixed(EMPTY, cat, s) && Valid(cat, p, i)
    requires Effect(EMPTY, s, Item(cat, p, i), fault, s', o) && SkuTaken(s.products, sku)
    ensures SkuTaken(s'.products, sku)
  {
    var id :| id in s.products && s.products[id].sku == sku;
    if Stored(o) {
      assert Usable(cat, p, i);
      if id == Item(cat, p, i).id { OwnRow(cat, s, p, i); }
      TargetSku(EMPTY, Item(cat, p, i));
      hide Setting, Mixed, Target, Usable;
      assert s'.products[id].sku == sku;
    }
  }

  /** After a complete item's fault-free turn its SKU is taken, by it or by another. */
  lemma TurnTakesSku(cat: Catalogue, s: Store, p: int, i: int, s': Store, o: Outcome)
    requires Usable(cat, p, i) && Effect(EMPTY, s, Item(cat, p, i), false, s', o)
    ensures SkuTaken(s'.products, Item(cat, p, i).codigo)
  {
    var raw := Item(cat, p, i);
    TargetSku(EMPTY, raw);
    hide Target;
    if Stored(o) {
      assert s'.products[raw.id].sku == raw.codigo;
    }
  }

  /** In a clean pass a SKU is taken only by an item that came before. */
  lemma TakenByEarlier(cat: Catalogue, p: nat, n: nat, sku: string) returns (q: int, m: int)
    requires Setting(EMPTY, cat) && n <= |cat.Page(p + 1)| && SkuTaken(StateAt(EMPTY, cat, p, n).products, sku)
    ensures Usable(cat, q, m) && Before(q, m, p, n) && Item(cat, q, m).codigo == sku
  {
    hide Setting, Mixed, Pass, StoreAfter;
    PassStaysMixed(EMPTY, cat, p);
    PageStaysMixed(EMPTY, cat, Pass(EMPTY, cat, p), p, CALM, n, n);
    var t := StateAt(EMPTY, cat, p, n);
    var id :| id in t.products && t.products[id].sku == sku;
    q, m := RowIsItems(cat, t, id);
    if !Before(q, m, p, n) {
      forall r, k | Usable(cat, r, k) && Item(cat, r, k).id == id ensures !Before(r, k, p, n) {
        OnePosition(EMPTY, cat, r, k, q, m);
      }
      Untouched(EMPTY, cat, p, n, id);
    }
  }

  /** And every item that came before has its SKU taken. */
  lemma {:induction false} EarlierTakes(cat: Catalogue, p: nat, n: nat, q: nat, m: nat)
    requires Setting(EMPTY, cat) && n <= |cat.Page(p + 1)| && Usable(cat, q, m) && Before(q, m, p, n)
    ensures SkuTaken(StateAt(EMPTY, cat, p, n).products, Item(cat, q, m).codigo)
    decreases p, n
  {
    hide Setting, Mixed, RunItems, Effect, SkuTaken;
    PassStaysMixed(EMPTY, cat, p);
    if n > 0 {
      var s := Pass(EMPTY, cat, p);
      PageStaysMixed(EMPTY, cat, s, p, CALM, n - 1, n - 1);
      PageTurn(EMPTY, cat, s, p, CALM, n - 1);
      if q == p && m == n - 1 {
        TurnTakesSku(cat, StateAt(EMPTY, cat, p, n - 1), p, n - 1, StateAt(EMPTY, cat, p, n), OutcomeAt(s, cat, p, CALM, n - 1));
      } else {
        EarlierTakes(cat, p, n - 1, q, m);
        SkuStays(cat, StateAt(EMPTY, cat, p, n - 1), p, n - 1, false, StateAt(EMPTY, cat, p, n),
                 OutcomeAt(s, cat, p, CALM, n - 1), Item(cat, q, m).codigo);
      }
    } else {
      NoItems(Pass(EMPTY, cat, p), cat, p, CALM);
      EarlierTakes(cat, p - 1, |cat.Page(p)|, q, m);
      assert StateAt(EMPTY, cat, p - 1, |cat.Page(p)|) == Pass(EMPTY, cat, p);
    }
  }

  lemma PassIsStateAt(cat: Catalogue, p: nat)
    ensures StateAt(EMPTY, cat, p, 0) == Pass(EMPTY, cat, p)
    ensures StateAt(EMPTY, cat, p, |cat.Page(p + 1)|) == Pass(EMPTY, cat, p + 1)
  {
    NoItems(Pass(EMPTY, cat, p), cat, p, CALM);
    hide RunItems;
  }

  // ----------------------------------------------- uncontested: every run agrees

  /** The item is the only claimant of its SKU so far. */
  ghost predicate Fresh(cat: Catalogue, p: nat, i: int) {
    Usable(cat, p, i) && NoEarlier(cat, p, Item(cat, p, i).codigo)
  }

  /** The table is the clean pass over p pages plus some of the next page's fresh items. */
  ghost predicate Within(cat: Catalogue, p: nat, s: Store) {
    var done := Pass(EMPTY, cat, p).products;
    && (forall id :: id in done ==> id in s.products && s.products[id] == done[id])
    && (forall id :: id in s.products && id !in done ==> FromPage(cat, p, s, id))
  }

  ghost predicate FromPage(cat: Catalogue, p: nat, s: Store, id: string) {
    exists i :: Fresh(cat, p, i) && Item(cat, p, i).id == id && IsNew(EMPTY, s, Item(cat, p, i))
  }

  /** A page item is not among the clean pass's earlier rows. */
  lemma NotYetThere(cat: Catalogue, p: nat, i: int)
    requires Setting(EMPTY, cat) && Usable(cat, p, i)
    ensures Item(cat, p, i).id !in Pass(EMPTY, cat, p).products
  {
    hide Setting, Pass;
    forall q, j | Usable(cat, q, j) && Item(cat, q, j).id == Item(cat, p, i).id ensures !Before(q, j, p, 0) {
      OnePosition(EMPTY, cat, q, j, p, i);
    }
    Untouched(EMPTY, cat, p, 0, Item(cat, p, i).id);
    PassIsStateAt(cat, p);
  }

  /** An item whose SKU an earlier page carries always meets that SKU's row. */
  lemma StaleClashes(cat: Catalogue, p: nat, s: Store, i: int)
    requires Setting(EMPTY, cat) && Within(cat, p, s) && Usable(cat, p, i) && !Fresh(cat, p, i)
    ensures Clash(s, Item(cat, p, i))
  {
    hide Setting, Pass;
    var q, m :| Usable(cat, q, m) && q < p && Item(cat, q, m).codigo == Item(cat, p, i).codigo;
    PassIsStateAt(cat, p);
    EarlierTakes(cat, p, 0, q, m);
    var done := Pass(EMPTY, cat, p).products;
    var h :| h in done && done[h].sku == Item(cat, p, i).codigo;
    NotYetThere(cat, p, i);
    assert s.products[h].sku == Item(cat, p, i).codigo;
  }

  /** A fresh item of an uncontested page meets nobody. */
  lemma FreshIsFree(cat: Catalogue, p: nat, s: Store, i: int)
    requires Setting(EMPTY, cat) && Uncontested(cat) && Mixed(EMPTY, cat, s) && Within(cat, p, s) && Fresh(cat, p, i)
    ensures !Clash(s, Item(cat, p, i))
  {
    hide Setting, Pass, Mixed;
    var raw := Item(cat, p, i);
    var done := Pass(EMPTY, cat, p).products;
    forall h | h in s.products && h != raw.id ensures s.products[h].sku != raw.codigo {
      if h in done {
        if done[h].sku == raw.codigo {
          PassIsStateAt(cat, p);
          assert SkuTaken(StateAt(EMPTY, cat, p, 0).products, raw.codigo);
          var q, m := TakenByEarlier(cat, p, 0, raw.codigo);
        }
      } else {
        assert FromPage(cat, p, s, h);
        var j :| Fresh(cat, p, j) && Item(cat, p, j).id == h && IsNew(EMPTY, s, Item(cat, p, j));
        TargetSku(EMPTY, Item(cat, p, j));
        assert !Contested(cat, p, i, j) && !Contested(cat, p, j, i);
      }
    }
  }

  lemma WithinStep(cat: Catalogue, p: nat, s: Store, i: nat, fault: bool, s': Store, o: Outcome)
    requires Setting(EMPTY, cat) && Uncontested(cat) && Mixed(EMPTY, cat, s) && Within(cat, p, s) && Valid(cat, p, i)
    requires Effect(EMPTY, s, Item(cat, p, i), fault, s', o)
    ensures Within(cat, p, s')
    ensures Fresh(cat, p, i) && !o.Raised? ==> IsNew(EMPTY, s', Item(cat, p, i))
  {
    hide Setting, Pass, Mixed, Uncontested;
    var raw := Item(cat, p, i);
    if Stored(o) {
      assert Usable(cat, p, i);
      NotYetThere(cat, p, i);
      if !Fresh(cat, p, i) { StaleClashes(cat, p, s, i); }
      hide NoEarlier, Target;
      assert IsNew(EMPTY, s', raw);
      forall id | id in s'.products && id !in Pass(EMPTY, cat, p).products ensures FromPage(cat, p, s', id) {
        if id != raw.id {
          assert FromPage(cat, p, s, id);
          var j :| Fresh(cat, p, j) && Item(cat, p, j).id == id && IsNew(EMPTY, s, Item(cat, p, j));
          assert IsNew(EMPTY, s', Item(cat, p, j));
        }
      }
    } else if Fresh(cat, p, i) {
      FreshIsFree(cat, p, s, i);
    }
  }

  lemma {:induction false} PageStaysWithin(cat: Catalogue, p: nat, s: Store, w: Weather, n: nat)
    requires Setting(EMPTY, cat) && Uncontested(cat) && Mixed(EMPTY, cat, s) && Within(cat, p, s) && n <= |cat.Page(p + 1)|
    ensures Within(cat, p, StoreAfter(s, cat, p, w, n))
    ensures forall m :: 0 <= m < n && Fresh(cat, p, m) && !OutcomeAt(s, cat, p, w, m).Raised? ==>
              IsNew(EMPTY, StoreAfter(s, cat, p, w, n), Item(cat, p, m))
  {
    hide Setting, Pass, Mixed, Uncontested, Within, StoreAfter, OutcomeAt, Effect, NoEarlier, IsNew;
    if n == 0 {
      NoItems(s, cat, p, w);
    } else {
      PageStaysWithin(cat, p, s, w, n - 1);
      PageStaysMixed(EMPTY, cat, s, p, w, n - 1, n - 1);
      PageTurn(EMPTY, cat, s, p, w, n - 1);
      WithinStep(cat, p, StoreAfter(s, cat, p, w, n - 1), n - 1, (p + 1, n - 1) in w.faults,
                 StoreAfter(s, cat, p, w, n), OutcomeAt(s, cat, p, w, n - 1));
    }
  }

  ghost predicate Full(cat: Catalogue, p: nat, s: Store) {
    Within(cat, p, s) && forall m :: Fresh(cat, p, m) ==> IsNew(EMPTY, s, Item(cat, p, m))
  }

  lemma FullIsUnique(cat: Catalogue, p: nat, s: Store, t: Store)
    requires Full(cat, p, s) && Full(cat, p, t)
    ensures s.products == t.products
  {
    hide Pass, Fresh, Target;
    forall id
      ensures id in s.products <==> id in t.products
      ensures id in s.products ==> s.products[id] == t.products[id]
    {
      if id !in Pass(EMPTY, cat, p).products {
        assert id in s.products ==> FromPage(cat, p, s, id);
        assert id in t.products ==> FromPage(cat, p, t, id);
      }
    }
  }

  lemma PassedPageIsFull(cat: Catalogue, p: nat, s: Store, w: Weather)
    requires Setting(EMPTY, cat) && Uncontested(cat) && Mixed(EMPTY, cat, s) && Within(cat, p, s)
    requires forall m :: 0 <= m < |cat.Page(p + 1)| ==> !OutcomeAt(s, cat, p, w, m).Raised?
    ensures Full(cat, p, StoreAfter(s, cat, p, w, |cat.Page(p + 1)|))
  {
    hide Setting, Pass, Mixed, Uncontested, Within, StoreAfter, OutcomeAt, NoEarlier, IsNew;
    PageStaysWithin(cat, p, s, w, |cat.Page(p + 1)|);
  }

  lemma PassedPageMatches(cat: Catalogue, p: nat, s: Store, w: Weather)
    requires Setting(EMPTY, cat) && Uncontested(cat) && Mixed(EMPTY, cat, s) && Within(cat, p, s)
    requires forall m :: 0 <= m < |cat.Page(p + 1)| ==> !OutcomeAt(s, cat, p, w, m).Raised?
    ensures StoreAfter(s, cat, p, w, |cat.Page(p + 1)|).products == Pass(EMPTY, cat, p + 1).products
  {
    var clean := Pass(EMPTY, cat, p);
    PassedPageIsFull(cat, p, s, w);
    PassStaysMixed(EMPTY, cat, p);
    forall m | 0 <= m < |cat.Page(p + 1)| ensures !OutcomeAt(clean, cat, p, CALM, m).Raised? {
      CalmNeverRaises(cat, clean, p, m);
    }
    assert Within(cat, p, clean);
    PassedPageIsFull(cat, p, clean, CALM);
    PassIsStateAt(cat, p);
    hide Full, Pass, StoreAfter, OutcomeAt, Within, Setting, Uncontested, Mixed;
    FullIsUnique(cat, p, StoreAfter(s, cat, p, w, |cat.Page(p + 1)|), StateAt(EMPTY, cat, p, |cat.Page(p + 1)|));
  }

  ghost predicate OnTrack(cat: Catalogue, size: nat, q: Sync) {
    && q.page >= 1 && Mixed(EMPTY, cat, q.store)
    && (!q.complete ==> Within(cat, q.page - 1, q.store))
    && (q.complete ==> q.page >= 2 && |cat.Page(q.page - 1)| < size
                       && q.store.products == Pass(EMPTY, cat, q.page - 1).products)
  }

  lemma AttemptStaysOnTrack(cat: Catalogue, size: nat, q: Sync, w: Weather)
    requires Setting(EMPTY, cat) && Uncontested(cat) && OnTrack(cat, size, q)
    ensures OnTrack(cat, size, Attempt(q, cat, size, w))
  {
    if !q.complete {
      var p := q.page - 1;
      AttemptLaw(q, cat, size, w, p);
      var n := |cat.Page(p + 1)|;
      PageStaysMixed(EMPTY, cat, q.store, p, w, 0, n);
      PageStaysWithin(cat, p, q.store, w, n);
      hide Attempt, StoreAfter, OutcomeAt, Setting, Uncontested, Mixed, Pass;
      if forall m :: 0 <= m < n ==> !OutcomeAt(q.store, cat, p, w, m).Raised? {
        PassedPageMatches(cat, p, q.store, w);
      }
    }
  }

  lemma {:induction false} RunsStayOnTrack(cat: Catalogue, size: nat, ws: seq<Weather>)
    requires Setting(EMPTY, cat) && Uncontested(cat)
    ensures OnTrack(cat, size, Attempts(Start(EMPTY), cat, size, ws))
  {
    hide Setting, Uncontested, OnTrack, Attempt;
    if ws == [] {
      assert OnTrack(cat, size, Start(EMPTY)) by { StartsOnTrack(cat, size); }
    } else {
      RunsStayOnTrack(cat, size, ws[..|ws| - 1]);
      AttemptStaysOnTrack(cat, size, Attempts(Start(EMPTY), cat, size, ws[..|ws| - 1]), ws[|ws| - 1]);
    }
  }

  lemma StartsOnTrack(cat: Catalogue, size: nat)
    requires Setting(EMPTY, cat)
    ensures OnTrack(cat, size, Start(EMPTY))
  {
    BaseIsMixed(EMPTY, cat);
    hide Setting, Mixed;
  }

  lemma {:induction false} PassBeyond(cat: Catalogue, k: nat)
    requires k >= |cat.pages|
    ensures Pass(EMPTY, cat, k) == Pass(EMPTY, cat, |cat.pages|)
  {
    if k > |cat.pages| {
      PassBeyond(cat, k - 1);
      assert cat.Page(k) == [];
    }
  }

  // -------------------------------------------------- contested: some run differs

  lemma {:induction false} FirstOnPage(cat: Catalogue, p: nat, sku: string, i: nat) returns (k: nat)
    requires Usable(cat, p, i) && Item(cat, p, i).codigo == sku
    ensures k <= i && Usable(cat, p, k) && Item(cat, p, k).codigo == sku
    ensures forall m :: Usable(cat, p, m) && Item(cat, p, m).codigo == sku ==> k <= m
  {
    if m: nat :| m < i && Usable(cat, p, m) && Item(cat, p, m).codigo == sku {
      k := FirstOnPage(cat, p, sku, m);
    } else {
      k := i;
    }
  }

  /** Calm attempts walk straight through the full pages. */
  lemma {:induction false} CalmReaches(cat: Catalogue, size: nat, p: nat)
    requires Setting(EMPTY, cat) && Cut(cat, size) && p < |cat.pages|
    ensures Attempts(Start(EMPTY), cat, size, Same(CALM, p)) == Sync(Pass(EMPTY, cat, p), p + 1, false)
  {
    hide Setting, RunItems, Attempt;
    if p == 0 {
      assert Same(CALM, 0) == [];
    } else {
      CalmReaches(cat, size, p - 1);
      SameAppend(CALM, p - 1, 1);
      assert Same(CALM, p)[..p - 1] == Same(CALM, p - 1);
      var r: nat := p - 1;
      var s := Pass(EMPTY, cat, r);
      PassStaysMixed(EMPTY, cat, r);
      forall m | 0 <= m < |cat.Page(r + 1)| ensures !OutcomeAt(s, cat, r, CALM, m).Raised? {
        CalmNeverRaises(cat, s, r, m);
      }
      AttemptLaw(Sync(s, p, false), cat, size, CALM, r);
      PassIsStateAt(cat, r);
    }
  }

  /** The product is missing and another row has its SKU. */
  ghost predicate Lost(s: Store, raw: Raw) {
    raw.id !in s.products && SkuTaken(s.products, raw.codigo)
  }

  lemma LostStep(cat: Catalogue, s: Store, p: int, i: int, fault: bool, s': Store, o: Outcome, q: int, m: int)
    requires Setting(EMPTY, cat) && Mixed(EMPTY, cat, s) && Valid(cat, p, i) && Usable(cat, q, m)
    requires Effect(EMPTY, s, Item(cat, p, i), fault, s', o) && Lost(s, Item(cat, q, m))
    ensures Lost(s', Item(cat, q, m))
  {
    SkuStays(cat, s, p, i, fault, s', o, Item(cat, q, m).codigo);
    if Stored(o) && Item(cat, p, i).id == Item(cat, q, m).id {
      OnePosition(EMPTY, cat, p, i, q, m);
    }
  }

  lemma {:induction false} LostOverPage(cat: Catalogue, s: Store, p: nat, w: Weather, n: nat, q: int, m: int)
    requires Setting(EMPTY, cat) && Mixed(EMPTY, cat, s) && n <= |cat.Page(p + 1)| && Usable(cat, q, m)
    requires Lost(s, Item(cat, q, m))
    ensures Lost(StoreAfter(s, cat, p, w, n), Item(cat, q, m))
  {
    hide Setting, Mixed, StoreAfter, OutcomeAt, Effect, Lost;
    if n == 0 {
      NoItems(s, cat, p, w);
    } else {
      LostOverPage(cat, s, p, w, n - 1, q, m);
      PageStaysMixed(EMPTY, cat, s, p, w, n - 1, n - 1);
      PageTurn(EMPTY, cat, s, p, w, n - 1);
      LostStep(cat, StoreAfter(s, cat, p, w, n - 1), p, n - 1, (p + 1, n - 1) in w.faults,
               StoreAfter(s, cat, p, w, n), OutcomeAt(s, cat, p, w, n - 1), q, m);
    }
  }

  /** Calm attempts finish from any such table, and what is lost stays lost. */
  lemma {:induction false} CalmFinishes(cat: Catalogue, size: nat, p: nat, s: Store, q: int, m: int) returns (n: nat)
    requires Setting(EMPTY, cat) && Mixed(EMPTY, cat, s) && size > 0 && p <= |cat.pages| && Usable(cat, q, m)
    requires Lost(s, Item(cat, q, m))
    ensures var r := Attempts(Sync(s, p + 1, false), cat, size, Same(CALM, n));
            r.complete && Lost(r.store, Item(cat, q, m))
    decreases |cat.pages| - p
  {
    hide Setting, Mixed, StoreAfter, OutcomeAt, Attempts, Attempt, Lost, Same;
    var k := |cat.Page(p + 1)|;
    var start := Sync(s, p + 1, false);
    var s' := StoreAfter(s, cat, p, CALM, k);
    forall j | 0 <= j < k ensures !OutcomeAt(s, cat, p, CALM, j).Raised? { CalmNeverRaises(cat, s, p, j); }
    AttemptLaw(start, cat, size, CALM, p);
    OneAttempt(start, cat, size, CALM);
    SameAppend(CALM, 1, 0);
    PageStaysMixed(EMPTY, cat, s, p, CALM, 0, k);
    LostOverPage(cat, s, p, CALM, k, q, m);
    if k < size {
      n := 1;
    } else {
      n := CalmFinishes(cat, size, p + 1, s', q, m);
      SameAppend(CALM, 1, n);
      AttemptsAppend(start, cat, size, [CALM], Same(CALM, n));
      n := n + 1;
    }
  }

  /** The page attempt in which the first claimant fails and the second one does not. */
  lemma {:induction false} FaultyPage(cat: Catalogue, p: nat, i: nat, j: nat, n: nat)
    requires Setting(EMPTY, cat) && n <= |cat.Page(p + 1)| && Contested(cat, p, i, j)
    ensures var t := StoreAfter(Pass(EMPTY, cat, p), cat, p, Weather({}, {(p + 1, i)}), n);
            && Mixed(EMPTY, cat, t) && Item(cat, p, i).id !in t.products
            && (n > j ==> SkuTaken(t.products, Item(cat, p, i).codigo))
    ensures n > i ==> OutcomeAt(Pass(EMPTY, cat, p), cat, p, Weather({}, {(p + 1, i)}), i).Raised?
  {
    hide Setting, Mixed, StoreAfter, OutcomeAt, Pass, SkuTaken, NoEarlier;
    var s, w := Pass(EMPTY, cat, p), Weather({}, {(p + 1, i)});
    PassStaysMixed(EMPTY, cat, p);
    PageStaysMixed(EMPTY, cat, s, p, w, n, n);
    if n == 0 {
      NoItems(s, cat, p, w);
      NotYetThere(cat, p, i);
    } else {
      FaultyPage(cat, p, i, j, n - 1);
      PageStaysMixed(EMPTY, cat, s, p, w, n - 1, n - 1);
      PageTurn(EMPTY, cat, s, p, w, n - 1);
      var t, t', o := StoreAfter(s, cat, p, w, n - 1), StoreAfter(s, cat, p, w, n), OutcomeAt(s, cat, p, w, n - 1);
      assert (p + 1, n - 1) in w.faults <==> n - 1 == i;
      if n - 1 != i && Stored(o) && Item(cat, p, n - 1).id == Item(cat, p, i).id { OnePosition(EMPTY, cat, p, n - 1, p, i); }
      if n - 1 == j {
        TurnTakesSku(cat, t, p, j, t', o);
      } else if n - 1 > j {
        SkuStays(cat, t, p, n - 1, (p + 1, n - 1) in w.faults, t', o, Item(cat, p, i).codigo);
      }
    }
  }

  lemma {:induction false} NewInPass(cat: Catalogue, p: nat, k: nat, q: int, m: int)
    requires Setting(EMPTY, cat) && p <= k && Usable(cat, q, m) && IsNew(EMPTY, Pass(EMPTY, cat, p), Item(cat, q, m))
    ensures IsNew(EMPTY, Pass(EMPTY, cat, k), Item(cat, q, m))
  {
    hide Setting, Mixed, StoreAfter, IsNew, Pass;
    if p < k {
      NewInPass(cat, p, k - 1, q, m);
      PassStaysMixed(EMPTY, cat, k - 1);
      PageStaysMixed(EMPTY, cat, Pass(EMPTY, cat, k - 1), k - 1, CALM, 0, |cat.Page(k)|);
      NoItems(Pass(EMPTY, cat, k - 1), cat, k - 1, CALM);
      PassIsStateAt(cat, k - 1);
    }
  }

  /** The clean pass stores the first claimant. */
  lemma FirstClaimantIsStored(cat: Catalogue, p: nat, i: nat)
    requires Setting(EMPTY, cat) && Fresh(cat, p, i)
    requires forall m :: Usable(cat, p, m) && Item(cat, p, m).codigo == Item(cat, p, i).codigo ==> i <= m
    ensures Item(cat, p, i).id in Pass(EMPTY, cat, |cat.pages|).products
  {
    hide Setting, Mixed, StoreAfter, Pass;
    var s, raw := Pass(EMPTY, cat, p), Item(cat, p, i);
    PassStaysMixed(EMPTY, cat, p);
    PageStaysMixed(EMPTY, cat, s, p, CALM, i, i);
    PageTurn(EMPTY, cat, s, p, CALM, i);
    CalmNeverRaises(cat, s, p, i);
    if SkuTaken(StateAt(EMPTY, cat, p, i).products, raw.codigo) {
      var q, m := TakenByEarlier(cat, p, i, raw.codigo);
    }
    assert !Clash(StateAt(EMPTY, cat, p, i), raw);
    assert IsNew(EMPTY, StateAt(EMPTY, cat, p, i + 1), raw);
    hide IsNew;
    PageStaysMixed(EMPTY, cat, s, p, CALM, i + 1, |cat.Page(p + 1)|);
    PassIsStateAt(cat, p);
    NewInPass(cat, p + 1, |cat.pages|, p, i);
    assert raw.id in Pass(EMPTY, cat, |cat.pages|).products by { NewIsThere(Pass(EMPTY, cat, |cat.pages|), raw); }
  }

  lemma NewIsThere(s: Store, raw: Raw)
    requires IsNew(EMPTY, s, raw)
    ensures raw.id in s.products
  {
  }

  /** One failure of the first claimant is enough: the second one takes the SKU for good. */
  lemma ContestedRunDiffers(cat: Catalogue, size: nat, p: nat, i0: nat, j: nat) returns (ws: seq<Weather>)
    requires Setting(EMPTY, cat) && Cut(cat, size) && Contested(cat, p, i0, j)
    ensures var r := Attempts(Start(EMPTY), cat, size, ws);
            r.complete && r.store.products != Pass(EMPTY, cat, |cat.pages|).products
  {
    var i := FirstOnPage(cat, p, Item(cat, p, i0).codigo, i0);
    assert Contested(cat, p, i, j);
    var raw, w, k := Item(cat, p, i), Weather({}, {(p + 1, i)}), |cat.Page(p + 1)|;
    hide Setting, Mixed, StoreAfter, OutcomeAt, Pass, Attempts, Attempt, Same, NoEarlier;
    CalmReaches(cat, size, p);
    var q0 := Sync(Pass(EMPTY, cat, p), p + 1, false);
    FaultyPage(cat, p, i, j, k);
    AttemptLaw(q0, cat, size, w, p);
    var s := StoreAfter(q0.store, cat, p, w, k);
    OneAttempt(q0, cat, size, w);
    var n := CalmFinishes(cat, size, p, s, p, i);
    AttemptsAppend(Start(EMPTY), cat, size, Same(CALM, p), [w]);
    AttemptsAppend(Start(EMPTY), cat, size, Same(CALM, p) + [w], Same(CALM, n));
    ws := Same(CALM, p) + [w] + Same(CALM, n);
    FirstClaimantIsStored(cat, p, i);
  }

  /** From an empty table, for every catalogue with distinct ids: every run of attempts that completes
      leaves the table of one clean pass, exactly when no two items of a page contest a SKU. */
  lemma EveryRunMatchesIff(cat: Catalogue, size: nat)
    requires Setting(EMPTY, cat) && Cut(cat, size)
    ensures (forall ws :: Attempts(Start(EMPTY), cat, size, ws).complete ==>
                            Attempts(Start(EMPTY), cat, size, ws).store.products == Pass(EMPTY, cat, |cat.pages|).products)
       <==> Uncontested(cat)
  {
    hide Setting, Attempts, Pass, Contested;
    if p: nat, i: nat, j: nat :| Contested(cat, p, i, j) {
      var ws := ContestedRunDiffers(cat, size, p, i, j);
    } else {
      forall ws | Attempts(Start(EMPTY), cat, size, ws).complete
        ensures Attempts(Start(EMPTY), cat, size, ws).store.products == Pass(EMPTY, cat, |cat.pages|).products
      {
        RunsStayOnTrack(cat, size, ws);
        PassBeyond(cat, Attempts(Start(EMPTY), cat, size, ws).page - 1);
      }
    }
  }
}
