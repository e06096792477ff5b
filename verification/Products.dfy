/** The product table, the per-item upsert and the page loop of one product batch.
    Money is in integer cents; text fields are the trimmed strings the source computes first. */
module Products {
  import opened Common

  datatype CategoryField = CategoryField(id: string, descricao: string)

  datatype Price = NoPrice | Flat(amount: int) | Split(venda: Option<int>, custo: Option<int>)

  datatype Raw = Raw(
    id: string, codigo: string, nome: string, categoria: Option<CategoryField>,
    descricao: string, gtin: string, preco: Price, estoque: Option<int>, situacao: string)

  datatype Product = Product(
    blingId: string, sku: string, name: string, description: string, ean: string,
    category: string, price: int, cost: int, stock: nat, active: bool)

  /** products is keyed by bling_id, categories maps a category's bling_id to its name. */
  datatype Store = Store(products: map<string, Product>, categories: map<string, string>)

  datatype Skip = MissingId | MissingCodigo | MissingNome | RepeatedSku

  /** What one item does to the batch; Raised is any exception other than a skip. */
  datatype Outcome = Created | Updated | Skipped(reason: Skip) | Raised

  const UNCATEGORIZED: CategoryField := CategoryField("uncategorized", "Sem categoria")

  predicate Complete(raw: Raw) {
    raw.id != "" && raw.codigo != "" && raw.nome != ""
  }

  function CategoryOf(raw: Raw): CategoryField {
    if raw.categoria.Some? && raw.categoria.value.id != "" && raw.categoria.value.descricao != ""
    then raw.categoria.value else UNCATEGORIZED
  }

  function Blank(raw: Raw): Product {
    Product(raw.id, raw.codigo, raw.nome, "", "", "", 0, 0, 0, true)
  }

  function IfSome(o: Option<int>, otherwise: int): int {
    if o.Some? then o.value else otherwise
  }

  /** The field assignments: an absent description, EAN, price or cost keeps the old value. */
  function Refresh(row: Product, raw: Raw): Product {
    var price := match raw.preco
                 case NoPrice => row.price
                 case Flat(v) => v
                 case Split(venda, _) => IfSome(venda, row.price);
    var cost := if raw.preco.Split? then IfSome(raw.preco.custo, row.cost) else row.cost;
    var stock := if raw.estoque.Some? && raw.estoque.value > 0 then raw.estoque.value else 0;
    var situation := if raw.situacao == "" then "A" else raw.situacao;
    Product(row.blingId, raw.codigo, raw.nome,
            if raw.descricao != "" then raw.descricao else row.description,
            if raw.gtin != "" then raw.gtin else row.ean,
            CategoryOf(raw).id, price, cost, stock,
            situation in {"A", "ATIVO", "1", "S"})
  }

  predicate SkuTaken(products: map<string, Product>, sku: string) {
    exists id :: id in products && products[id].sku == sku
  }

  /** The unique index on sku and the check on price, as the flush sees them. */
  predicate Admits(products: map<string, Product>, row: Product) {
    row.price >= 0 && forall id :: id in products && products[id].sku == row.sku ==> id == row.blingId
  }

  /** One item inside its savepoint. `fault` is the environment making the work raise.
      The update path never looks the SKU up; only the unique index can stop it. */
  function Upsert(s: Store, raw: Raw, fault: bool): (Store, Outcome) {
    if raw.id == "" then (s, Skipped(MissingId))
    else if raw.codigo == "" then (s, Skipped(MissingCodigo))
    else if raw.nome == "" then (s, Skipped(MissingNome))
    else if fault then (s, Raised)
    else if raw.id !in s.products && SkuTaken(s.products, raw.codigo) then (s, Skipped(RepeatedSku))
    else
      var known := raw.id in s.products;
      var row := Refresh(if known then s.products[raw.id] else Blank(raw), raw);
      if !Admits(s.products, row) then (s, Raised)
      else (Store(s.products[raw.id := row], s.categories[CategoryOf(raw).id := CategoryOf(raw).descricao]),
            if known then Updated else Created)
  }

  /** Rows are stored under their own bling_id. */
  ghost predicate Keyed(products: map<string, Product>) {
    forall id :: id in products ==> products[id].blingId == id
  }

  /** The database session: tables updated in place, a savepoint restored when the item raises. */
  class Session {
    var products: map<string, Product>
    var categories: map<string, string>

    function Contents(): Store
      reads this
    {
      Store(products, categories)
    }

    method UpsertProduct(raw: Raw, fault: bool) returns (outcome: Outcome)
      requires Keyed(products)
      modifies this
      ensures (Contents(), outcome) == Upsert(old(Contents()), raw, fault)
      ensures Keyed(products)
    {
      if raw.id == "" { return Skipped(MissingId); }
      if raw.codigo == "" { return Skipped(MissingCodigo); }
      if raw.nome == "" { return Skipped(MissingNome); }
      var savepoint := categories;
      var category := CategoryOf(raw);
      categories := categories[category.id := category.descricao];
      if fault {
        categories := savepoint;
        return Raised;
      }
      var row;
      if raw.id in products {
        row := products[raw.id];
        outcome := Updated;
      } else if SkuTaken(products, raw.codigo) {
        categories := savepoint;
        return Skipped(RepeatedSku);
      } else {
        row := Blank(raw);
        outcome := Created;
      }
      row := Refresh(row, raw);
      if !Admits(products, row) {
        categories := savepoint;
        return Raised;
      }
      products := products[raw.id := row];
    }
  }

  // ---------------------------------------------------------------- the batch

  datatype Tally = Tally(processed: nat, created: nat, updated: nat, skipped: nat, failed: nat,
                         reasons: map<Skip, nat>)

  const NO_TALLY := Tally(0, 0, 0, 0, 0, map[])

  function ReasonCount(t: Tally, r: Skip): nat {
    if r in t.reasons then t.reasons[r] else 0
  }

  function Count(t: Tally, o: Outcome): Tally {
    match o
    case Created => t.(processed := t.processed + 1, created := t.created + 1)
    case Updated => t.(processed := t.processed + 1, updated := t.updated + 1)
    case Skipped(r) => t.(skipped := t.skipped + 1, reasons := t.reasons[r := ReasonCount(t, r) + 1])
    case Raised => t.(failed := t.failed + 1)
  }

  /** Pages 1, 2, ... of the remote list; every page past the end is empty. */
  datatype Catalogue = Catalogue(pages: seq<seq<Raw>>) {
    function Page(p: nat): seq<Raw> {
      if 1 <= p <= |pages| then pages[p - 1] else []
    }
  }

  /** What goes wrong during one request: pages whose fetch raises, items that raise. */
  datatype Weather = Weather(down: set<nat>, faults: set<(nat, nat)>)

  const CALM := Weather({}, {})

  /** Store and tally after the first n items of a page. */
  function RunItems(s: Store, t: Tally, items: seq<Raw>, page: nat, w: Weather, n: nat): (Store, Tally)
    requires n <= |items|
  {
    if n == 0 then (s, t)
    else
      var (s0, t0) := RunItems(s, t, items, page, w, n - 1);
      var (s1, o) := Upsert(s0, items[n - 1], (page, n - 1) in w.faults);
      (s1, Count(t0, o))
  }

  datatype Batch = Batch(store: Store, tally: Tally, fetched: nat, page: nat, done: nat,
                         naturalEnd: bool, halted: bool)

  function StartBatch(s: Store, page: nat): Batch {
    Batch(s, NO_TALLY, 0, page, 0, false, false)
  }

  /** One turn of the page loop. */
  function PageStep(b: Batch, cat: Catalogue, size: nat, w: Weather): Batch {
    if b.halted then b
    else if b.page in w.down then
      b.(tally := b.tally.(failed := b.tally.failed + 1), halted := true)
    else
      var items := cat.Page(b.page);
      var (s, t) := RunItems(b.store, b.tally, items, b.page, w, |items|);
      if t.failed > b.tally.failed then
        b.(store := s, tally := t, fetched := b.fetched + |items|, halted := true)
      else
        Batch(s, t, b.fetched + |items|, b.page + 1, b.done + 1, |items| < size, |items| < size)
  }

  function RunPages(b: Batch, cat: Catalogue, size: nat, w: Weather, n: nat): Batch {
    if n == 0 then b else PageStep(RunPages(b, cat, size, w, n - 1), cat, size, w)
  }

  datatype BatchResult = BatchResult(
    startPage: nat, endPage: int, pagesProcessed: nat, fetched: nat, processed: nat, created: nat,
    updated: nat, skipped: nat, failed: nat, nextPage: Option<nat>, hasMore: bool, naturalEnd: bool,
    reasons: map<Skip, nat>, operation: Option<string>)

  function ToResult(start: nat, b: Batch): BatchResult {
    BatchResult(start, b.page - 1, b.done, b.fetched, b.tally.processed, b.tally.created,
                b.tally.updated, b.tally.skipped, b.tally.failed,
                if b.naturalEnd then None else Some(b.page), !b.naturalEnd, b.naturalEnd, b.tally.reasons, None)
  }

  datatype BoundsError = InvalidBounds

  lemma {:induction false} RunStaysHaltedOrDone(b: Batch, cat: Catalogue, size: nat, w: Weather, m: nat, n: nat)
    requires m <= n && (m == n || RunPages(b, cat, size, w, m).halted)
    ensures RunPages(b, cat, size, w, n) == RunPages(b, cat, size, w, m)
  {
    if m < n {
      RunStaysHaltedOrDone(b, cat, size, w, m, n - 1);
    }
  }

  /** The items of one fetched page, each in its own savepoint. */
  method SyncPage(session: Session, items: seq<Raw>, page: nat, w: Weather, before: Tally) returns (tally: Tally)
    requires Keyed(session.products)
    modifies session
    ensures Keyed(session.products)
    ensures (session.Contents(), tally) == RunItems(old(session.Contents()), before, items, page, w, |items|)
  {
    tally := before;
    for i := 0 to |items|
      invariant Keyed(session.products)
      invariant (session.Contents(), tally) == RunItems(old(session.Contents()), before, items, page, w, i)
    {
      var outcome := session.UpsertProduct(items[i], (page, i) in w.faults);
      tally := Count(tally, outcome);
    }
  }

  /** sync_products_batch: the page loop, on the live session. */
  method SyncProductsBatch(session: Session, cat: Catalogue, start: int, pages: int, size: int, w: Weather)
    returns (r: Result<BatchResult, BoundsError>)
    requires Keyed(session.products)
    modifies session
    ensures Keyed(session.products)
    ensures r.Err? <==> !(1 <= pages <= 5) || start < 1 || !(1 <= size <= 100)
    ensures r.Err? ==> session.Contents() == old(session.Contents())
    ensures r.Ok? ==>
              var b := RunPages(StartBatch(old(session.Contents()), start), cat, size, w, pages);
              session.Contents() == b.store && r.value == ToResult(start, b)
  {
    if !(1 <= pages <= 5) || start < 1 || !(1 <= size <= 100) { return Err(InvalidBounds); }
    var tally, naturalEnd, halted := NO_TALLY, false, false;
    var fetched: nat, current: nat, actual: nat := 0, start, 0;
    hide RunItems;
    ghost var b0 := StartBatch(session.Contents(), start);
    ghost var b := b0;
    var turn := 0;
    while turn < pages && !halted
      invariant 0 <= turn <= pages && current >= 1
      invariant Keyed(session.products)
      invariant b == RunPages(b0, cat, size, w, turn)
      invariant b == Batch(session.Contents(), tally, fetched, current, actual, naturalEnd, halted)
      decreases pages - turn
    {
      ghost var b' := PageStep(b, cat, size, w);
      if current in w.down {
        tally := tally.(failed := tally.failed + 1);
        halted := true;
      } else {
        var items := cat.Page(current);
        fetched := fetched + |items|;
        var failuresBefore := tally.failed;
        tally := SyncPage(session, items, current, w, tally);
        if tally.failed > failuresBefore {
          halted := true;
        } else {
          naturalEnd := |items| < size;
          actual := actual + 1;
          current := current + 1;
          halted := naturalEnd;
        }
      }
      assert b' == Batch(session.Contents(), tally, fetched, current, actual, naturalEnd, halted);
      turn := turn + 1;
      b := b';
    }
    RunStaysHaltedOrDone(b0, cat, size, w, turn, pages);
    var next := if naturalEnd then None else Some(current);
    r := Ok(BatchResult(start, current - 1, actual, fetched, tally.processed, tally.created,
                        tally.updated, tally.skipped, tally.failed, next, !naturalEnd, naturalEnd,
                        tally.reasons, None));
  }

  // ------------------------------------------------------- conservation laws

  ghost predicate Balanced(t: Tally, seen: nat) {
    && t.processed + t.skipped + t.failed == seen
    && t.created + t.updated == t.processed
    && ReasonCount(t, MissingId) + ReasonCount(t, MissingCodigo) + ReasonCount(t, MissingNome)
       + ReasonCount(t, RepeatedSku) == t.skipped
  }

  lemma CountBalanced(t: Tally, o: Outcome, seen: nat)
    requires Balanced(t, seen)
    ensures Balanced(Count(t, o), seen + 1)
    ensures Count(t, o).failed == t.failed + if o.Raised? then 1 else 0
  {
    match o {
      case Created =>
      case Updated =>
      case Raised =>
      case Skipped(r) =>
        forall q: Skip
          ensures ReasonCount(Count(t, o), q) == ReasonCount(t, q) + if q == r then 1 else 0
        {
        }
        match r { case MissingId => case MissingCodigo => case MissingNome => case RepeatedSku => }
    }
  }

  lemma {:induction false} ItemsBalanced(s: Store, t: Tally, items: seq<Raw>, page: nat, w: Weather, n: nat, seen: nat)
    requires n <= |items| && Balanced(t, seen)
    ensures Balanced(RunItems(s, t, items, page, w, n).1, seen + n)
    ensures RunItems(s, t, items, page, w, n).1.failed >= t.failed
  {
    hide Upsert;
    if n > 0 {
      ItemsBalanced(s, t, items, page, w, n - 1, seen);
      var (s0, t0) := RunItems(s, t, items, page, w, n - 1);
      CountBalanced(t0, Upsert(s0, items[n - 1], (page, n - 1) in w.faults).1, seen + n - 1);
    }
  }

  ghost predicate FetchFailed(b: Batch, w: Weather) {
    b.halted && !b.naturalEnd && b.page in w.down
  }

  ghost predicate PageLaw(b: Batch, start: nat, w: Weather) {
    && b.page == start + b.done
    && (b.naturalEnd ==> b.halted && b.tally.failed == 0 && b.done > 0)
    && (b.halted && !b.naturalEnd <==> b.tally.failed > 0)
    && Balanced(b.tally, b.fetched + if FetchFailed(b, w) then 1 else 0)
  }

  lemma PageStepLaw(b: Batch, start: nat, cat: Catalogue, size: nat, w: Weather)
    requires PageLaw(b, start, w)
    ensures PageLaw(PageStep(b, cat, size, w), start, w)
  {
    if !b.halted && b.page !in w.down {
      var items := cat.Page(b.page);
      ItemsBalanced(b.store, b.tally, items, b.page, w, |items|, b.fetched);
    }
  }

  lemma {:induction false} PagesLaw(s: Store, start: nat, cat: Catalogue, size: nat, w: Weather, n: nat)
    ensures PageLaw(RunPages(StartBatch(s, start), cat, size, w, n), start, w)
  {
    if n > 0 {
      PagesLaw(s, start, cat, size, w, n - 1);
      PageStepLaw(RunPages(StartBatch(s, start), cat, size, w, n - 1), start, cat, size, w);
    }
  }

  /** Every batch result accounts for each fetched item once, plus one failure exactly when a page
      fetch raised, and a failure always leaves more to do. */
  lemma BatchConservation(s: Store, start: nat, cat: Catalogue, size: nat, w: Weather, pages: nat)
    requires start >= 1
    ensures var b := RunPages(StartBatch(s, start), cat, size, w, pages);
            var r := ToResult(start, b);
            && r.processed + r.skipped + r.failed == r.fetched + (if FetchFailed(b, w) then 1 else 0)
            && r.created + r.updated == r.processed
            && ReasonCount(b.tally, MissingId) + ReasonCount(b.tally, MissingCodigo)
               + ReasonCount(b.tally, MissingNome) + ReasonCount(b.tally, RepeatedSku) == r.skipped
            && r.endPage == start + r.pagesProcessed - 1
            && (r.hasMore ==> r.nextPage == Some(start + r.pagesProcessed))
            && (r.failed > 0 ==> r.hasMore)
            && (r.naturalEnd ==> r.pagesProcessed > 0)
  {
    PagesLaw(s, start, cat, size, w, pages);
  }

  // -------------------------------------------------------- counters by outcome

  /** What each of the first n items of a page came to. */
  function Outcomes(s: Store, items: seq<Raw>, page: nat, w: Weather, n: nat): seq<Outcome>
    requires n <= |items|
  {
    if n == 0 then []
    else Outcomes(s, items, page, w, n - 1)
         + [Upsert(RunItems(s, NO_TALLY, items, page, w, n - 1).0, items[n - 1], (page, n - 1) in w.faults).1]
  }

  function Times(outcomes: seq<Outcome>, o: Outcome): nat {
    multiset(outcomes)[o]
  }

  /** Every counter grows by the number of outcomes it is named after, every skip reason by its own. */
  ghost predicate Counts(t: Tally, outcomes: seq<Outcome>, t': Tally) {
    && t'.created == t.created + Times(outcomes, Created) && t'.updated == t.updated + Times(outcomes, Updated)
    && t'.failed == t.failed + Times(outcomes, Raised)
    && t'.processed == t.processed + Times(outcomes, Created) + Times(outcomes, Updated)
    && forall r: Skip :: ReasonCount(t', r) == ReasonCount(t, r) + Times(outcomes, Skipped(r))
  }

  lemma CountsStep(t: Tally, outcomes: seq<Outcome>, t': Tally, o: Outcome)
    requires Counts(t, outcomes, t')
    ensures Counts(t, outcomes + [o], Count(t', o))
  {
    assert multiset(outcomes + [o]) == multiset(outcomes) + multiset{o};
    assert forall p: Outcome :: Times(outcomes + [o], p) == Times(outcomes, p) + if p == o then 1 else 0;
    hide Times;
  }

  lemma {:induction false} StoreIgnoresTally(s: Store, t: Tally, items: seq<Raw>, page: nat, w: Weather, n: nat)
    requires n <= |items|
    ensures RunItems(s, t, items, page, w, n).0 == RunItems(s, NO_TALLY, items, page, w, n).0
  {
    hide Upsert, Count;
    if n > 0 {
      StoreIgnoresTally(s, t, items, page, w, n - 1);
    }
  }

  lemma {:induction false} PageCounts(s: Store, t: Tally, items: seq<Raw>, page: nat, w: Weather, n: nat)
    requires n <= |items|
    ensures Counts(t, Outcomes(s, items, page, w, n), RunItems(s, t, items, page, w, n).1)
  {
    hide Upsert, Count, Counts;
    if n == 0 {
      assert Counts(t, [], t) by { NothingCounted(t); }
    } else {
      PageCounts(s, t, items, page, w, n - 1);
      StoreIgnoresTally(s, t, items, page, w, n - 1);
      var o := Upsert(RunItems(s, t, items, page, w, n - 1).0, items[n - 1], (page, n - 1) in w.faults).1;
      CountsStep(t, Outcomes(s, items, page, w, n - 1), RunItems(s, t, items, page, w, n - 1).1, o);
    }
  }

  lemma NothingCounted(t: Tally)
    ensures Counts(t, [], t)
  {
  }

  /** The first missing field names the reason an incomplete item is skipped for. */
  lemma IncompleteReason(s: Store, raw: Raw, fault: bool)
    requires !Complete(raw)
    ensures var (s', o) := Upsert(s, raw, fault);
            s' == s && o.Skipped? && o.reason != RepeatedSku
            && (o.reason == MissingId <==> raw.id == "")
            && (o.reason == MissingCodigo <==> raw.id != "" && raw.codigo == "")
            && (o.reason == MissingNome <==> raw.id != "" && raw.codigo != "" && raw.nome == "")
  {
  }

  /** A batch reports the counters of its tally under their own names. */
  lemma ReportsItsTally(start: nat, b: Batch)
    ensures var r := ToResult(start, b);
            && r.processed == b.tally.processed && r.created == b.tally.created && r.updated == b.tally.updated
            && r.skipped == b.tally.skipped && r.failed == b.tally.failed && r.fetched == b.fetched
            && r.reasons == b.tally.reasons && r.pagesProcessed == b.done
  {
  }
}
