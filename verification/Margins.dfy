/** Product analytics: totals and the pooled margin, over exact reals. */
module Margins {
  import opened Common

  datatype Row = Row(id: string, revenue: real, covered: real, cost: real, quantity: int)

  datatype Item = Item(id: string, revenue: real, quantity: int, margin: Option<real>, coverage: Option<real>)

  datatype Report = Report(
    products: seq<Item>, revenue: real, quantity: int, averageMargin: Option<real>, coverage: Option<real>)

  function MarginOf(covered: real, cost: real): Option<real> {
    if covered == 0.0 then None else Some((covered - cost) / covered * 100.0)
  }

  function Share(part: real, whole: real): Option<real> {
    if whole == 0.0 then None else Some(part / whole)
  }

  function ItemOf(r: Row): Item {
    Item(r.id, r.revenue, r.quantity, MarginOf(r.covered, r.cost), Share(r.covered, r.revenue))
  }

  function Sum(rows: seq<Row>, f: Row -> real, n: nat): real
    requires n <= |rows|
  {
    if n == 0 then 0.0 else Sum(rows, f, n - 1) + f(rows[n - 1])
  }

  function Covered(): Row -> real { (r: Row) => r.covered }
  function Cost(): Row -> real { (r: Row) => r.cost }
  function Revenue(): Row -> real { (r: Row) => r.revenue }

  function SumQuantity(items: seq<Item>, n: nat): int
    requires n <= |items|
  {
    if n == 0 then 0 else SumQuantity(items, n - 1) + items[n - 1].quantity
  }

  function SumRevenue(items: seq<Item>, n: nat): real
    requires n <= |items|
  {
    if n == 0 then 0.0 else SumRevenue(items, n - 1) + items[n - 1].revenue
  }

  /** The percentage of the covered revenue that its cost leaves; none exactly when nothing is covered. */
  ghost predicate IsMargin(m: Option<real>, covered: real, cost: real) {
    (m.None? <==> covered == 0.0) && (m.Some? ==> m.value * covered == (covered - cost) * 100.0)
  }

  ghost predicate IsShare(s: Option<real>, part: real, whole: real) {
    (s.None? <==> whole == 0.0) && (s.Some? ==> s.value * whole == part)
  }

  lemma FiguresMean(covered: real, cost: real, revenue: real)
    ensures IsMargin(MarginOf(covered, cost), covered, cost) && IsShare(Share(covered, revenue), covered, revenue)
  {
    if covered != 0.0 {
      var m := (covered - cost) / covered;
      assert m * covered == covered - cost;
      assert (m * 100.0) * covered == (covered - cost) * 100.0;
    }
  }

  /** The figures multiply back: a margin times its covered revenue is what the cost leaves, a coverage times
      its revenue is what is covered, and the totals are those of the products listed. */
  method GetProductAnalytics(rows: seq<Row>) returns (r: Report)
    ensures |r.products| == |rows| && forall k :: 0 <= k < |rows| ==> r.products[k] == ItemOf(rows[k])
    ensures forall k :: 0 <= k < |rows| ==>
              var p, row := r.products[k], rows[k];
              && p.id == row.id && p.revenue == row.revenue && p.quantity == row.quantity
              && IsMargin(p.margin, row.covered, row.cost) && IsShare(p.coverage, row.covered, row.revenue)
    ensures IsMargin(r.averageMargin, Sum(rows, Covered(), |rows|), Sum(rows, Cost(), |rows|))
    ensures IsShare(r.coverage, Sum(rows, Covered(), |rows|), r.revenue)
    ensures r.revenue == Sum(rows, Revenue(), |rows|) == SumRevenue(r.products, |r.products|)
    ensures r.quantity == SumQuantity(r.products, |r.products|)
    ensures r.averageMargin == MarginOf(Sum(rows, Covered(), |rows|), Sum(rows, Cost(), |rows|))
    ensures r.coverage == Share(Sum(rows, Covered(), |rows|), r.revenue)
  {
    var products: seq<Item> := [];
    var costed, cost, revenue := 0.0, 0.0, 0.0;
    for i := 0 to |rows|
      invariant |products| == i && forall k :: 0 <= k < i ==> products[k] == ItemOf(rows[k])
      invariant revenue == SumRevenue(products, i)
      invariant costed == Sum(rows, Covered(), i) && cost == Sum(rows, Cost(), i) && revenue == Sum(rows, Revenue(), i)
    {
      var row := rows[i];
      var margin := if row.covered != 0.0 then Some((row.covered - row.cost) / row.covered * 100.0) else None;
      var coverage := if row.revenue != 0.0 then Some(row.covered / row.revenue) else None;
      SumsExtend(products, Item(row.id, row.revenue, row.quantity, margin, coverage), i);
      products := products + [Item(row.id, row.revenue, row.quantity, margin, coverage)];
      costed, cost, revenue := costed + row.covered, cost + row.cost, revenue + row.revenue;
    }
    var quantity := 0;
    for i := 0 to |products|
      invariant quantity == SumQuantity(products, i)
    {
      quantity := quantity + products[i].quantity;
    }
    r := Report(products, revenue, quantity, MarginOf(costed, cost), Share(costed, revenue));
    hide IsMargin, IsShare, MarginOf, Share;
    FiguresMean(costed, cost, revenue);
    forall k | 0 <= k < |rows|
      ensures IsMargin(products[k].margin, rows[k].covered, rows[k].cost)
              && IsShare(products[k].coverage, rows[k].covered, rows[k].revenue)
    {
      FiguresMean(rows[k].covered, rows[k].cost, rows[k].revenue);
    }
  }

  lemma {:induction false} SumsExtend(items: seq<Item>, more: Item, n: nat)
    requires n <= |items|
    ensures SumRevenue(items + [more], n) == SumRevenue(items, n)
  {
    if n > 0 {
      SumsExtend(items, more, n - 1);
    }
  }

  // ------------------------------------------------------- the pooled margin

  ghost predicate Covering(rows: seq<Row>) {
    forall k :: 0 <= k < |rows| ==> rows[k].covered >= 0.0 && (rows[k].covered == 0.0 ==> rows[k].cost == 0.0)
  }

  /** Every margin the report shows lies between lo and hi. */
  ghost predicate MarginsWithin(rows: seq<Row>, lo: real, hi: real) {
    forall k :: 0 <= k < |rows| && rows[k].covered != 0.0 ==>
      lo <= MarginOf(rows[k].covered, rows[k].cost).value <= hi
  }

  lemma MarginBounds(covered: real, cost: real, bound: real)
    requires covered > 0.0
    ensures MarginOf(covered, cost).value <= bound <==> (covered - cost) * 100.0 <= bound * covered
    ensures MarginOf(covered, cost).value >= bound <==> (covered - cost) * 100.0 >= bound * covered
  {
    var m := (covered - cost) / covered;
    assert m * covered == covered - cost;
    assert (m * 100.0) * covered == (covered - cost) * 100.0;
    var d := m * 100.0 - bound;
    assert d * covered == (covered - cost) * 100.0 - bound * covered;
  }

  lemma AddBounds(lo: real, hi: real, c: real, k: real, c': real, k': real)
    requires lo * c <= (c - k) * 100.0 <= hi * c && lo * c' <= (c' - k') * 100.0 <= hi * c'
    ensures lo * (c + c') <= ((c + c') - (k + k')) * 100.0 <= hi * (c + c')
  {
  }

  lemma RowWithin(rows: seq<Row>, lo: real, hi: real, k: nat)
    requires Covering(rows) && MarginsWithin(rows, lo, hi) && k < |rows|
    ensures lo * rows[k].covered <= (rows[k].covered - rows[k].cost) * 100.0 <= hi * rows[k].covered
  {
    var r := rows[k];
    if r.covered > 0.0 {
      MarginBounds(r.covered, r.cost, lo);
      MarginBounds(r.covered, r.cost, hi);
    }
  }

  lemma {:induction false} SumsWithin(rows: seq<Row>, lo: real, hi: real, n: nat)
    requires Covering(rows) && MarginsWithin(rows, lo, hi) && n <= |rows|
    ensures var c, k := Sum(rows, Covered(), n), Sum(rows, Cost(), n);
            c >= 0.0 && lo * c <= (c - k) * 100.0 <= hi * c
  {
    hide MarginsWithin;
    if n > 0 {
      var r := rows[n - 1];
      SumsWithin(rows, lo, hi, n - 1);
      RowWithin(rows, lo, hi, n - 1);
      var c, k := Sum(rows, Covered(), n - 1), Sum(rows, Cost(), n - 1);
      AddBounds(lo, hi, c, k, r.covered, r.cost);
      assert Sum(rows, Covered(), n) == c + r.covered && Sum(rows, Cost(), n) == k + r.cost;
    }
  }

  /** The pooled margin is a mean: it lies between any bounds of the per-product margins. */
  lemma PooledMarginIsAMean(rows: seq<Row>, lo: real, hi: real)
    requires Covering(rows) && MarginsWithin(rows, lo, hi)
    requires MarginOf(Sum(rows, Covered(), |rows|), Sum(rows, Cost(), |rows|)).Some?
    ensures lo <= MarginOf(Sum(rows, Covered(), |rows|), Sum(rows, Cost(), |rows|)).value <= hi
  {
    SumsWithin(rows, lo, hi, |rows|);
    var c, k := Sum(rows, Covered(), |rows|), Sum(rows, Cost(), |rows|);
    MarginBounds(c, k, lo);
    MarginBounds(c, k, hi);
  }

  // ------------------------------------------------ what giveaways may cost

  ghost predicate Costed(rows: seq<Row>) {
    forall k :: 0 <= k < |rows| ==> rows[k].covered >= 0.0 && rows[k].cost >= 0.0
  }

  ghost predicate MarginsAtMost(rows: seq<Row>, hi: real) {
    forall k :: 0 <= k < |rows| && rows[k].covered != 0.0 ==> MarginOf(rows[k].covered, rows[k].cost).value <= hi
  }

  /** Known cost of the products without covered revenue, which show no margin of their own. */
  function Unshown(): Row -> real { (r: Row) => if r.covered == 0.0 then r.cost else 0.0 }

  /** By how much a product's profit exceeds the margin lo, in percent times revenue. */
  function Above(lo: real): Row -> real {
    (r: Row) => if r.covered == 0.0 then 0.0 else (r.covered - r.cost) * 100.0 - lo * r.covered
  }

  /** Profit less lo times the covered revenue. */
  function Excess(covered: real, cost: real, lo: real): real {
    (covered - cost) * 100.0 - lo * covered
  }

  lemma ExcessAdds(c: real, k: real, c': real, k': real, lo: real)
    ensures Excess(c + c', k + k', lo) == Excess(c, k, lo) + Excess(c', k', lo)
  {
    assert lo * (c + c') == lo * c + lo * c';
  }

  lemma RowExcess(r: Row, lo: real)
    ensures Excess(r.covered, r.cost, lo) == Above(lo)(r) - 100.0 * Unshown()(r)
  {
    if r.covered == 0.0 { assert lo * r.covered == 0.0; }
  }

  lemma {:induction false} PooledBalance(rows: seq<Row>, lo: real, n: nat)
    requires n <= |rows|
    ensures Excess(Sum(rows, Covered(), n), Sum(rows, Cost(), n), lo)
         == Sum(rows, Above(lo), n) - 100.0 * Sum(rows, Unshown(), n)
  {
    if n == 0 {
      assert lo * 0.0 == 0.0;
    } else {
      hide Above, Unshown;
      var r := rows[n - 1];
      PooledBalance(rows, lo, n - 1);
      ExcessAdds(Sum(rows, Covered(), n - 1), Sum(rows, Cost(), n - 1), r.covered, r.cost, lo);
      RowExcess(r, lo);
      hide Excess;
    }
  }

  lemma {:induction false} SignOfAbove(rows: seq<Row>, bound: real, n: nat)
    requires Costed(rows) && n <= |rows|
    ensures MarginsWithin(rows, bound, bound) ==> Sum(rows, Above(bound), n) == 0.0
    ensures MarginsAtMost(rows, bound) ==> Sum(rows, Above(bound), n) <= 0.0
    ensures Sum(rows, Unshown(), n) >= 0.0
  {
    if n > 0 {
      var r := rows[n - 1];
      SignOfAbove(rows, bound, n - 1);
      if r.covered > 0.0 {
        MarginBounds(r.covered, r.cost, bound);
      }
    }
  }

  /** The average margin reaches lo exactly when the giveaways cost no more than the products sold
      earn above lo, for every lo. */
  lemma AverageReachesIff(rows: seq<Row>, lo: real)
    requires Costed(rows) && Sum(rows, Covered(), |rows|) > 0.0
    ensures MarginOf(Sum(rows, Covered(), |rows|), Sum(rows, Cost(), |rows|)).value >= lo
       <==> 100.0 * Sum(rows, Unshown(), |rows|) <= Sum(rows, Above(lo), |rows|)
  {
    PooledBalance(rows, lo, |rows|);
    MarginBounds(Sum(rows, Covered(), |rows|), Sum(rows, Cost(), |rows|), lo);
  }

  lemma AverageAtMost(rows: seq<Row>, hi: real)
    requires Costed(rows) && MarginsAtMost(rows, hi) && Sum(rows, Covered(), |rows|) > 0.0
    ensures MarginOf(Sum(rows, Covered(), |rows|), Sum(rows, Cost(), |rows|)).value <= hi
  {
    hide MarginsAtMost, Costed, Sum;
    PooledBalance(rows, hi, |rows|);
    SignOfAbove(rows, hi, |rows|);
    hide MarginOf;
    MarginBounds(Sum(rows, Covered(), |rows|), Sum(rows, Cost(), |rows|), hi);
  }

  /** So it stays within the margins shown exactly on that condition: it never exceeds the highest one. */
  lemma AverageInRangeIff(rows: seq<Row>, lo: real, hi: real)
    requires Costed(rows) && MarginsWithin(rows, lo, hi) && Sum(rows, Covered(), |rows|) > 0.0
    ensures var average := MarginOf(Sum(rows, Covered(), |rows|), Sum(rows, Cost(), |rows|)).value;
            average <= hi
            && (lo <= average <= hi <==> 100.0 * Sum(rows, Unshown(), |rows|) <= Sum(rows, Above(lo), |rows|))
  {
    assert MarginsAtMost(rows, hi);
    hide MarginsWithin, MarginsAtMost, Costed, Sum;
    AverageReachesIff(rows, lo);
    AverageAtMost(rows, hi);
  }

  /** When all products sold have one margin, any giveaway with a known cost pulls the average below it. */
  lemma GiveawayLeavesTheRange(rows: seq<Row>, margin: real)
    requires Costed(rows) && MarginsWithin(rows, margin, margin) && Sum(rows, Covered(), |rows|) > 0.0
    ensures MarginOf(Sum(rows, Covered(), |rows|), Sum(rows, Cost(), |rows|)).value < margin
       <==> Sum(rows, Unshown(), |rows|) > 0.0
  {
    hide MarginsWithin, Costed, MarginOf, Sum;
    AverageReachesIff(rows, margin);
    SignOfAbove(rows, margin, |rows|);
  }
}
