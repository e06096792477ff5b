/** Why resuming from a page checkpoint is safe: however often pages are retried, once every page
    has finished without a failure the product table is what one uninterrupted pass leaves. */
module Convergence {
  import opened Common
  import opened Products

  // A position is a zero-based page index and an index on that page; page index p is page number p + 1.

  predicate Valid(cat: Catalogue, p: int, i: int) {
    0 <= p < |cat.pages| && 0 <= i < |cat.pages[p]|
  }

  function Item(cat: Catalogue, p: int, i: int): Raw
    requires Valid(cat, p, i)
  {
    cat.pages[p][i]
  }

  ghost predicate Usable(cat: Catalogue, p: int, i: int) {
    Valid(cat, p, i) && Complete(Item(cat, p, i))
  }

  /** Two complete items never share an id or a SKU. */
  ghost predicate Distinct(cat: Catalogue) {
    forall p, i, q, j ::
      (Usable(cat, p, i) && Usable(cat, q, j)
       && (Item(cat, p, i).id == Item(cat, q, j).id || Item(cat, p, i).codigo == Item(cat, q, j).codigo))
      ==> p == q && i == j
  }

  /** A SKU of the catalogue that some row already holds is held by the row with the item's id. */
  ghost predicate Agrees(cat: Catalogue, base: Store) {
    forall p, i, id ::
      (Usable(cat, p, i) && id in base.products && base.products[id].sku == Item(cat, p, i).codigo)
      ==> id == Item(cat, p, i).id
  }

  /** Rows keyed by their own id, and the table's check constraint. */
  ghost predicate Sound(s: Store) {
    Keyed(s.products) && forall id :: id in s.products ==> s.products[id].price >= 0
  }

  ghost predicate Clean(cat: Catalogue, base: Store) {
    Distinct(cat) && Agrees(cat, base) && Sound(base)
  }

  /** The row a complete item leaves when it is applied to the row the table started with. */
  function Target(base: Store, raw: Raw): Product {
    Refresh(if raw.id in base.products then base.products[raw.id] else Blank(raw), raw)
  }

  ghost predicate IsNew(base: Store, s: Store, raw: Raw) {
    raw.id in s.products && s.products[raw.id] == Target(base, raw)
  }

  ghost predicate IsOld(base: Store, s: Store, id: string) {
    && (id in s.products <==> id in base.products)
    && (id in s.products ==> s.products[id] == base.products[id])
  }

  ghost predicate InCatalogue(cat: Catalogue, id: string) {
    exists p, i :: Usable(cat, p, i) && Item(cat, p, i).id == id
  }

  /** Position (p, i) lies on the first k pages, or among the first j items of the next one. */
  predicate Before(p: int, i: int, k: int, j: int) {
    p < k || (p == k && i < j)
  }

  /** Every catalogue row is untouched or final, and final if its position comes before (k, j). */
  ghost predicate Progress(base: Store, cat: Catalogue, k: nat, j: nat, s: Store) {
    && Sound(s)
    && (forall p, i :: Usable(cat, p, i) ==>
          IsNew(base, s, Item(cat, p, i)) || (!Before(p, i, k, j) && IsOld(base, s, Item(cat, p, i).id)))
    && (forall id :: IsOld(base, s, id) || InCatalogue(cat, id))
  }

  lemma StartProgress(base: Store, cat: Catalogue)
    requires Clean(cat, base)
    ensures Progress(base, cat, 0, 0, base)
  {
  }

  lemma LessProgress(base: Store, cat: Catalogue, k: nat, j: nat, s: Store)
    requires Progress(base, cat, k, j, s)
    ensures forall k', j' :: 0 <= k' <= k && (j' == 0 || (k' == k && 0 <= j' <= j)) ==> Progress(base, cat, k', j', s)
  {
  }

  lemma SkuIsFree(base: Store, cat: Catalogue, k: nat, j: nat, s: Store, p: int, i: int, id: string)
    requires Clean(cat, base) && Progress(base, cat, k, j, s) && Usable(cat, p, i)
    requires id in s.products && s.products[id].sku == Item(cat, p, i).codigo
    ensures id == Item(cat, p, i).id
  {
    if !IsOld(base, s, id) {
      var q, m :| Usable(cat, q, m) && Item(cat, q, m).id == id;
      assert IsNew(base, s, Item(cat, q, m));
    }
  }

  lemma RefreshTwice(row: Product, raw: Raw)
    ensures Refresh(Refresh(row, raw), raw) == Refresh(row, raw)
  {
  }

  lemma UpsertShape(base: Store, cat: Catalogue, k: nat, j: nat, s: Store, p: int, i: int, fault: bool)
    requires Clean(cat, base) && Progress(base, cat, k, j, s) && Valid(cat, p, i)
    ensures var raw := Item(cat, p, i);
            var (s', o) := Upsert(s, raw, fault);
            && (Complete(raw) ==> !o.Skipped?)
            && (Complete(raw) && !o.Raised? ==> s'.products == s.products[raw.id := Target(base, raw)]
                                                && Target(base, raw).price >= 0)
            && (!Complete(raw) || o.Raised? ==> s' == s)
            && (Complete(raw) && o.Raised? ==> fault || Target(base, raw).price < 0)
  {
    var raw := Item(cat, p, i);
    if Complete(raw) {
      forall id | id in s.products && s.products[id].sku == raw.codigo
        ensures id == raw.id
      {
        SkuIsFree(base, cat, k, j, s, p, i, id);
      }
      assert IsNew(base, s, raw) || IsOld(base, s, raw.id);
      if raw.id in base.products {
        RefreshTwice(base.products[raw.id], raw);
      } else {
        RefreshTwice(Blank(raw), raw);
      }
    }
  }

  /** One item, applied in any order and any number of times, only moves rows towards their final form. */
  lemma UpsertKeepsProgress(base: Store, cat: Catalogue, k: nat, j: nat, s: Store, p: int, i: int, fault: bool)
    requires Clean(cat, base) && Progress(base, cat, k, j, s) && Valid(cat, p, i)
    ensures var (s', o) := Upsert(s, Item(cat, p, i), fault);
            && Progress(base, cat, k, j, s')
            && (o.Raised? || (p == k && i == j ==> Progress(base, cat, k, j + 1, s')))
  {
    var raw := Item(cat, p, i);
    var (s', o) := Upsert(s, raw, fault);
    UpsertShape(base, cat, k, j, s, p, i, fault);
    if Complete(raw) && !o.Raised? {
      forall q, m | Usable(cat, q, m)
        ensures IsNew(base, s', Item(cat, q, m))
                || (!Before(q, m, k, j) && !(q == p && m == i) && IsOld(base, s', Item(cat, q, m).id))
      {
        assert IsNew(base, s, Item(cat, q, m)) || IsOld(base, s, Item(cat, q, m).id);
      }
      forall id ensures IsOld(base, s', id) || InCatalogue(cat, id) {
        assert IsOld(base, s, id) || InCatalogue(cat, id);
        if id == raw.id {
          assert Usable(cat, p, i) && Item(cat, p, i).id == id;
        }
      }
    }
  }

  lemma {:induction false} ItemsKeepProgress(base: Store, cat: Catalogue, k: nat, s: Store, t: Tally, w: Weather, n: nat)
    requires Clean(cat, base) && Progress(base, cat, k, 0, s) && n <= |cat.Page(k + 1)|
    ensures var (s', t') := RunItems(s, t, cat.Page(k + 1), k + 1, w, n);
            && Progress(base, cat, k, 0, s')
            && t'.failed >= t.failed
            && (t'.failed == t.failed ==> Progress(base, cat, k, n, s'))
  {
    hide Progress, Upsert, Clean;
    if n > 0 {
      ItemsKeepProgress(base, cat, k, s, t, w, n - 1);
      var (s0, t0) := RunItems(s, t, cat.Page(k + 1), k + 1, w, n - 1);
      var fault := (k + 1, n - 1) in w.faults;
      assert Valid(cat, k, n - 1) && Item(cat, k, n - 1) == cat.Page(k + 1)[n - 1];
      UpsertKeepsProgress(base, cat, k, 0, s0, k, n - 1, fault);
      if t0.failed == t.failed {
        UpsertKeepsProgress(base, cat, k, n - 1, s0, k, n - 1, fault);
      }
    }
  }

  lemma PageFinished(base: Store, cat: Catalogue, k: nat, s: Store)
    requires Progress(base, cat, k, |cat.Page(k + 1)|, s)
    ensures Progress(base, cat, k + 1, 0, s)
  {
  }

  /** A batch starting after page k ends after some page k' >= k with all pages up to k' final. */
  lemma {:induction false} BatchKeepsProgress(base: Store, cat: Catalogue, k: nat, s: Store, size: nat, w: Weather, n: nat)
    requires Clean(cat, base) && Progress(base, cat, k, 0, s)
    ensures var b := RunPages(StartBatch(s, k + 1), cat, size, w, n);
            && b.page >= k + 1 && Progress(base, cat, b.page - 1, 0, b.store)
            && (b.naturalEnd ==> b.page >= k + 2 && |cat.Page(b.page - 1)| < size)
  {
    hide Progress, RunItems, Clean;
    if n > 0 {
      BatchKeepsProgress(base, cat, k, s, size, w, n - 1);
      var b := RunPages(StartBatch(s, k + 1), cat, size, w, n - 1);
      if !b.halted && b.page !in w.down {
        var items := cat.Page(b.page);
        ItemsKeepProgress(base, cat, b.page - 1, b.store, b.tally, w, |items|);
        var (s', t') := RunItems(b.store, b.tally, items, b.page, w, |items|);
        if t'.failed == b.tally.failed {
          PageFinished(base, cat, b.page - 1, s');
        }
      }
    }
  }

  // -------------------------------------------- the reference: one clean pass

  /** A list cut into pages: every page but the last is full. */
  ghost predicate Cut(cat: Catalogue, size: nat) {
    size > 0 && forall p :: 0 <= p < |cat.pages| - 1 ==> |cat.pages[p]| == size
  }

  /** One uninterrupted pass over the first k pages, with nothing going wrong from outside. */
  function Pass(s: Store, cat: Catalogue, k: nat): Store {
    if k == 0 then s
    else RunItems(Pass(s, cat, k - 1), NO_TALLY, cat.Page(k), k, CALM, |cat.Page(k)|).0
  }

  /** Every item of the first k pages leaves a row that the price check admits. */
  ghost predicate Priced(base: Store, cat: Catalogue, k: nat) {
    forall p, i :: Usable(cat, p, i) && p < k ==> Target(base, Item(cat, p, i)).price >= 0
  }

  lemma ProgressIsPriced(base: Store, cat: Catalogue, k: nat, s: Store)
    requires Progress(base, cat, k, 0, s)
    ensures Priced(base, cat, k)
  {
    forall p, i | Usable(cat, p, i) && p < k
      ensures Target(base, Item(cat, p, i)).price >= 0
    {
      assert Before(p, i, k, 0);
      assert IsNew(base, s, Item(cat, p, i));
    }
  }

  lemma CalmItemDoesNotRaise(base: Store, cat: Catalogue, k: nat, s: Store, i: nat)
    requires Clean(cat, base) && Progress(base, cat, k, 0, s) && Valid(cat, k, i) && Priced(base, cat, k + 1)
    ensures !Upsert(s, Item(cat, k, i), false).1.Raised?
  {
    hide Progress, Clean;
    UpsertShape(base, cat, k, 0, s, k, i, false);
    if Complete(Item(cat, k, i)) {
      assert Usable(cat, k, i);
    }
  }

  lemma {:induction false} CalmItemsDoNotFail(base: Store, cat: Catalogue, k: nat, s: Store, t: Tally, n: nat)
    requires Clean(cat, base) && Progress(base, cat, k, 0, s) && n <= |cat.Page(k + 1)| && Priced(base, cat, k + 1)
    ensures RunItems(s, t, cat.Page(k + 1), k + 1, CALM, n).1.failed == t.failed
  {
    hide Progress, Clean, Upsert, Priced;
    if n > 0 {
      CalmItemsDoNotFail(base, cat, k, s, t, n - 1);
      ItemsKeepProgress(base, cat, k, s, t, CALM, n - 1);
      var (s0, t0) := RunItems(s, t, cat.Page(k + 1), k + 1, CALM, n - 1);
      assert Valid(cat, k, n - 1) && Item(cat, k, n - 1) == cat.Page(k + 1)[n - 1];
      CalmItemDoesNotRaise(base, cat, k, s0, n - 1);
    }
  }

  /** Pages past the last one are empty. */
  lemma PricedPrefix(base: Store, cat: Catalogue, k: nat)
    requires Priced(base, cat, k)
    ensures forall j: nat {:trigger Priced(base, cat, j)} :: j <= k || k >= |cat.pages| ==> Priced(base, cat, j)
  {
  }

  lemma {:induction false} PassProgress(base: Store, cat: Catalogue, k: nat)
    requires Clean(cat, base) && Priced(base, cat, k)
    ensures Progress(base, cat, k, 0, Pass(base, cat, k))
  {
    hide Progress, RunItems, Clean, Priced;
    if k == 0 {
      StartProgress(base, cat);
    } else {
      PricedPrefix(base, cat, k);
      PassProgress(base, cat, k - 1);
      var n := |cat.Page(k)|;
      ItemsKeepProgress(base, cat, k - 1, Pass(base, cat, k - 1), NO_TALLY, CALM, n);
      CalmItemsDoNotFail(base, cat, k - 1, Pass(base, cat, k - 1), NO_TALLY, n);
      PageFinished(base, cat, k - 1, Pass(base, cat, k));
    }
  }

  lemma FinalTableIsUnique(base: Store, cat: Catalogue, k: nat, s1: Store, s2: Store)
    requires Progress(base, cat, k, 0, s1) && Progress(base, cat, k, 0, s2) && k >= |cat.pages|
    ensures s1.products == s2.products
  {
    forall id
      ensures (id in s1.products <==> id in s2.products)
              && (id in s1.products ==> s1.products[id] == s2.products[id])
    {
      if InCatalogue(cat, id) {
        var p, i :| Usable(cat, p, i) && Item(cat, p, i).id == id;
        assert Before(p, i, k, 0);
        assert IsNew(base, s1, Item(cat, p, i)) && IsNew(base, s2, Item(cat, p, i));
      } else {
        assert IsOld(base, s1, id) && IsOld(base, s2, id);
      }
    }
  }

  /** Once every page up to a short one is final, the table is the clean pass's table. */
  lemma FinishedMeansPassed(base: Store, cat: Catalogue, size: nat, k: nat, s: Store)
    requires Clean(cat, base) && Cut(cat, size) && Progress(base, cat, k, 0, s)
    requires k >= 1 && |cat.Page(k)| < size
    ensures k >= |cat.pages| && s.products == Pass(base, cat, k).products
  {
    ProgressIsPriced(base, cat, k, s);
    PassProgress(base, cat, k);
    FinalTableIsUnique(base, cat, k, s, Pass(base, cat, k));
  }

  // -------------------------------------------------- one item, case by case

  ghost predicate UniqueSku(products: map<string, Product>) {
    forall a, b :: a in products && b in products && products[a].sku == products[b].sku ==> a == b
  }

  /** A stated price, cost, description or EAN is taken over, an unstated one is kept; a missing or
      negative stock is zero; the product is active unless the payload says otherwise. */
  ghost predicate FieldsFollow(old_: Product, raw: Raw, row: Product) {
    && (raw.preco.Flat? ==> row.price == raw.preco.amount && row.cost == old_.cost)
    && (raw.preco.NoPrice? ==> row.price == old_.price && row.cost == old_.cost)
    && (raw.preco.Split? ==> raw.preco.venda in {None, Some(row.price)} && raw.preco.custo in {None, Some(row.cost)}
                             && (raw.preco.venda.None? ==> row.price == old_.price)
                             && (raw.preco.custo.None? ==> row.cost == old_.cost))
    && (raw.estoque.Some? && raw.estoque.value >= 0 ==> row.stock == raw.estoque.value)
    && (raw.estoque.None? || raw.estoque.value < 0 ==> row.stock == 0)
    && row.blingId == raw.id
    && (raw.descricao != "" ==> row.description == raw.descricao) && (raw.descricao == "" ==> row.description == old_.description)
    && (raw.gtin != "" ==> row.ean == raw.gtin) && (raw.gtin == "" ==> row.ean == old_.ean)
    && (row.active <==> raw.situacao in {"", "A", "ATIVO", "1", "S"})
  }

  /** The row is filed under the payload's category, whose name is stored with it, if the payload names one
      completely, and under "uncategorized" otherwise; no other category is touched. */
  ghost predicate CategoryFollows(raw: Raw, row: Product, before: map<string, string>, after: map<string, string>) {
    if raw.categoria.Some? && raw.categoria.value.id != "" && raw.categoria.value.descricao != ""
    then row.category == raw.categoria.value.id && after == before[row.category := raw.categoria.value.descricao]
    else row.category == "uncategorized" && after == before[row.category := "Sem categoria"]
  }

  lemma RefreshFollows(old_: Product, raw: Raw, categories: map<string, string>)
    requires old_.blingId == raw.id
    ensures var row, c := Refresh(old_, raw), CategoryOf(raw);
            && row.blingId == raw.id && row.sku == raw.codigo && row.name == raw.nome && row.category == c.id
            && FieldsFollow(old_, raw, row) && CategoryFollows(raw, row, categories, categories[c.id := c.descricao])
  {
  }

  /** Exactly when an item is skipped, raises or is stored, and what storing touches. */
  lemma UpsertOutcomes(s: Store, raw: Raw)
    requires Complete(raw) && UniqueSku(s.products) && Sound(s)
    ensures var (s', o) := Upsert(s, raw, false);
            var old_ := if raw.id in s.products then s.products[raw.id] else Blank(raw);
            var clash := exists id :: id in s.products && id != raw.id && s.products[id].sku == raw.codigo;
            && (o == Skipped(RepeatedSku) <==> raw.id !in s.products && clash)
            && (o == Raised <==> (raw.id in s.products && clash)
                                 || (!clash && Refresh(old_, raw).price < 0))
            && (o == Created ==> raw.id !in s.products) && (o == Updated ==> raw.id in s.products)
            && (o.Skipped? || o.Raised? ==> s' == s)
            && UniqueSku(s'.products) && Sound(s')
            && (o.Created? || o.Updated? ==>
                  raw.id in s'.products && s'.products[raw.id].sku == raw.codigo && s'.products[raw.id].name == raw.nome
                  && s'.products[raw.id].category in s'.categories
                  && FieldsFollow(old_, raw, s'.products[raw.id])
                  && CategoryFollows(raw, s'.products[raw.id], s.categories, s'.categories))
            && (forall id :: id != raw.id ==> (id in s'.products <==> id in s.products)
                                              && (id in s.products ==> s'.products[id] == s.products[id]))
  {
    RefreshFollows(if raw.id in s.products then s.products[raw.id] else Blank(raw), raw, s.categories);
    hide Refresh, CategoryOf, FieldsFollow, CategoryFollows;
  }
}
