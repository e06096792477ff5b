/** ABC (Pareto) classification of products by sales value, over exact reals. */
module Abc {
  datatype Class = A | B | C

  datatype Sale = Sale(id: string, value: real)

  const A_LIMIT: real := 0.8
  const B_LIMIT: real := 0.95

  /** JavaScript's stable sort with `b.salesValue - a.salesValue`. */
  function Insert(s: Sale, sorted: seq<Sale>): seq<Sale> {
    if sorted == [] then [s]
    else if s.value >= sorted[0].value then [s] + sorted
    else [sorted[0]] + Insert(s, sorted[1..])
  }

  function SortDescending(sales: seq<Sale>): seq<Sale> {
    if sales == [] then [] else Insert(sales[0], SortDescending(sales[1..]))
  }

  ghost predicate Descending(s: seq<Sale>) {
    forall i, j :: 0 <= i < j < |s| ==> s[i].value >= s[j].value
  }

  lemma {:induction false} InsertContents(s: Sale, sorted: seq<Sale>)
    ensures multiset(Insert(s, sorted)) == multiset{s} + multiset(sorted)
  {
    if sorted != [] {
      InsertContents(s, sorted[1..]);
      assert sorted == [sorted[0]] + sorted[1..];
    }
  }

  lemma {:induction false} InsertDescends(s: Sale, sorted: seq<Sale>)
    requires Descending(sorted)
    ensures Descending(Insert(s, sorted))
    ensures forall k :: 0 <= k < |Insert(s, sorted)| ==>
              Insert(s, sorted)[k].value <= s.value || (sorted != [] && Insert(s, sorted)[k].value <= sorted[0].value)
  {
    if sorted != [] {
      InsertDescends(s, sorted[1..]);
    }
  }

  lemma {:induction false} SortLaw(sales: seq<Sale>)
    ensures Descending(SortDescending(sales)) && multiset(SortDescending(sales)) == multiset(sales)
  {
    if sales != [] {
      SortLaw(sales[1..]);
      InsertContents(sales[0], SortDescending(sales[1..]));
      InsertDescends(sales[0], SortDescending(sales[1..]));
      assert sales == [sales[0]] + sales[1..];
    }
  }

  /** The products with this value, in the order listed. */
  function WithValue(s: seq<Sale>, value: real): seq<Sale> {
    if s == [] then [] else (if s[0].value == value then [s[0]] else []) + WithValue(s[1..], value)
  }

  lemma {:induction false} InsertIsStable(s: Sale, sorted: seq<Sale>, value: real)
    ensures WithValue(Insert(s, sorted), value) == (if s.value == value then [s] else []) + WithValue(sorted, value)
  {
    if sorted != [] && s.value < sorted[0].value {
      InsertIsStable(s, sorted[1..], value);
    } else {
      assert ([s] + sorted)[1..] == sorted;
    }
  }

  /** Equal sellers keep the order in which they were given. */
  lemma {:induction false} SortIsStable(sales: seq<Sale>, value: real)
    ensures WithValue(SortDescending(sales), value) == WithValue(sales, value)
  {
    if sales != [] {
      SortIsStable(sales[1..], value);
      InsertIsStable(sales[0], SortDescending(sales[1..]), value);
    }
  }

  function Total(s: seq<Sale>, n: nat): real
    requires n <= |s|
  {
    if n == 0 then 0.0 else Total(s, n - 1) + s[n - 1].value
  }

  /** The class of the product at rank k. */
  function ClassAt(s: seq<Sale>, k: nat): Class
    requires k < |s|
  {
    var total := Total(s, |s|);
    if total == 0.0 then C
    else
      var before, after := Total(s, k) / total, Total(s, k + 1) / total;
      if after <= A_LIMIT || before < A_LIMIT then A
      else if after <= B_LIMIT || before < B_LIMIT then B
      else C
  }

  /** result.set in rank order. */
  function Classes(s: seq<Sale>, n: nat): map<string, Class>
    requires n <= |s|
  {
    if n == 0 then map[] else Classes(s, n - 1)[s[n - 1].id := ClassAt(s, n - 1)]
  }

  method ClassifyAbc(products: seq<Sale>) returns (result: map<string, Class>)
    ensures result == Classes(SortDescending(products), |SortDescending(products)|)
  {
    result := map[];
    var sorted := SortDescending(products);
    var total := 0.0;
    for i := 0 to |sorted|
      invariant total == Total(sorted, i)
    {
      total := total + sorted[i].value;
    }
    if total == 0.0 {
      for i := 0 to |sorted|
        invariant result == Classes(sorted, i)
      {
        result := result[sorted[i].id := C];
      }
      return;
    }
    var cumulative := 0.0;
    for i := 0 to |sorted|
      invariant cumulative == Total(sorted, i) && result == Classes(sorted, i)
    {
      var previous := cumulative / total;
      cumulative := cumulative + sorted[i].value;
      var fraction := cumulative / total;
      if fraction <= A_LIMIT {
        result := result[sorted[i].id := A];
      } else if previous < A_LIMIT {
        result := result[sorted[i].id := A];
      } else if fraction <= B_LIMIT {
        result := result[sorted[i].id := B];
      } else if previous < B_LIMIT {
        result := result[sorted[i].id := B];
      } else {
        result := result[sorted[i].id := C];
      }
    }
  }

  // ------------------------------------------------------------------- laws

  ghost predicate Ordinary(s: seq<Sale>) {
    Total(s, |s|) > 0.0 && forall k :: 0 <= k < |s| ==> s[k].value >= 0.0
  }

  lemma {:induction false} TotalsGrow(s: seq<Sale>, i: nat, j: nat)
    requires i <= j <= |s| && forall k :: 0 <= k < |s| ==> s[k].value >= 0.0
    ensures Total(s, i) <= Total(s, j)
  {
    if i < j {
      TotalsGrow(s, i, j - 1);
    }
  }

  lemma FractionBelow(part: real, total: real, limit: real)
    requires total > 0.0
    ensures part / total < limit <==> part < limit * total
    ensures part / total <= limit <==> part <= limit * total
  {
    assert part / total * total == part;
  }

  lemma ClassByShares(s: seq<Sale>, k: nat)
    requires Ordinary(s) && k < |s|
    ensures var total := Total(s, |s|);
            ClassAt(s, k) == if Total(s, k + 1) <= A_LIMIT * total || Total(s, k) < A_LIMIT * total then A
                             else if Total(s, k + 1) <= B_LIMIT * total || Total(s, k) < B_LIMIT * total then B
                             else C
    ensures Total(s, k + 1) == Total(s, k) + s[k].value
  {
    var total := Total(s, |s|);
    FractionBelow(Total(s, k), total, A_LIMIT);
    FractionBelow(Total(s, k + 1), total, A_LIMIT);
    FractionBelow(Total(s, k), total, B_LIMIT);
    FractionBelow(Total(s, k + 1), total, B_LIMIT);
  }

  predicate NoWorse(a: Class, b: Class) {
    a == A || b == C || a == b
  }

  /** Classes never improve down the ranking. */
  lemma RankOrderIsClassOrder(s: seq<Sale>, i: nat, j: nat)
    requires Ordinary(s) && i <= j < |s|
    ensures NoWorse(ClassAt(s, i), ClassAt(s, j))
  {
    ClassByShares(s, i);
    ClassByShares(s, j);
    TotalsGrow(s, i, j);
    TotalsGrow(s, i + 1, j + 1);
  }

  /** Class A is a leading run [0, a), class B the next run [a, b). A holds at least 80% and A with B at
      least 95% of sales, and neither run is longer than needed: what ranks before any positive-valued
      member of A (of A or B) holds less than 80% (95%). */
  lemma ParetoCuts(s: seq<Sale>) returns (a: nat, b: nat)
    requires Ordinary(s)
    ensures a <= b <= |s|
    ensures forall k :: 0 <= k < |s| ==> ClassAt(s, k) == if k < a then A else if k < b then B else C
    ensures Total(s, a) >= 0.8 * Total(s, |s|) && Total(s, b) >= 0.95 * Total(s, |s|)
    ensures forall k :: 0 <= k < a && s[k].value > 0.0 ==> Total(s, k) < 0.8 * Total(s, |s|)
    ensures forall k :: 0 <= k < b && s[k].value > 0.0 ==> Total(s, k) < 0.95 * Total(s, |s|)
  {
    hide ClassAt, Total;
    var total := Total(s, |s|);
    a := 0;
    while a < |s| && ClassAt(s, a) == A
      invariant a <= |s| && forall k :: 0 <= k < a ==> ClassAt(s, k) == A
    {
      a := a + 1;
    }
    b := a;
    while b < |s| && ClassAt(s, b) == B
      invariant a <= b <= |s| && forall k :: a <= k < b ==> ClassAt(s, k) == B
    {
      b := b + 1;
    }
    forall k | 0 <= k < |s|
      ensures ClassAt(s, k) == if k < a then A else if k < b then B else C
      ensures k < a && s[k].value > 0.0 ==> Total(s, k) < A_LIMIT * total
      ensures k < b && s[k].value > 0.0 ==> Total(s, k) < B_LIMIT * total
    {
      ClassByShares(s, k);
      if k >= a { RankOrderIsClassOrder(s, a, k); }
      if k >= b {
        RankOrderIsClassOrder(s, a, b);
        RankOrderIsClassOrder(s, b, k);
      }
    }
    if a < |s| { ClassByShares(s, a); }
    if b < |s| { ClassByShares(s, b); }
  }

  /** The map the dashboard gets: with distinct product ids, every product has its rank's class, and a
      better seller never gets a worse class than a poorer one. */
  lemma {:induction false} MapHasRankClasses(s: seq<Sale>, n: nat, k: nat)
    requires k < n <= |s| && forall i, j :: 0 <= i < j < |s| ==> s[i].id != s[j].id
    ensures s[k].id in Classes(s, n) && Classes(s, n)[s[k].id] == ClassAt(s, k)
  {
    if k < n - 1 {
      MapHasRankClasses(s, n - 1, k);
    }
  }

  lemma BetterSellerNoWorse(products: seq<Sale>, i: nat, j: nat)
    requires var s := SortDescending(products);
             Ordinary(s) && i < |s| && j < |s| && s[i].value > s[j].value
             && forall p, q :: 0 <= p < q < |s| ==> s[p].id != s[q].id
    ensures var s := SortDescending(products);
            var m := Classes(s, |s|);
            s[i].id in m && s[j].id in m && NoWorse(m[s[i].id], m[s[j].id])
  {
    var s := SortDescending(products);
    SortLaw(products);
    MapHasRankClasses(s, |s|, i);
    MapHasRankClasses(s, |s|, j);
    RankOrderIsClassOrder(s, i, j);
  }

  /** Without sales every product is in class C, and in the map. */
  lemma {:induction false} NothingSoldIsC(s: seq<Sale>, n: nat)
    requires n <= |s| && Total(s, |s|) == 0.0
    ensures (forall k :: 0 <= k < |s| ==> ClassAt(s, k) == C)
    ensures (forall id :: id in Classes(s, n) ==> Classes(s, n)[id] == C)
    ensures forall k :: 0 <= k < n ==> s[k].id in Classes(s, n)
  {
    if n > 0 {
      NothingSoldIsC(s, n - 1);
    }
  }
}
