/** Backfilling order items: a keyset query over orders without items, and the batch that fetches
    each one's detail. Orders are identified by their primary key, a natural number here. */
module OrderItems {
  import opened Common
  import opened OrderLines

  /** index lists the primary keys in ascending order, lines holds every order's items. */
  datatype Orders = Orders(index: seq<nat>, lines: map<nat, seq<Line>>)

  ghost predicate ValidOrders(o: Orders) {
    && (forall i, j :: 0 <= i < j < |o.index| ==> o.index[i] < o.index[j])
    && (forall id :: id in o.index <==> id in o.lines)
    && (forall id :: id in o.lines ==> UniqueSkus(o.lines[id]))
  }

  predicate Bare(o: Orders, id: nat) {
    id in o.lines && o.lines[id] == []
  }

  predicate HasItems(o: Orders, id: nat) {
    id in o.lines && o.lines[id] != []
  }

  predicate Beyond(after: Option<nat>, id: nat) {
    after.None? || id > after.value
  }

  predicate Wanted(o: Orders, after: Option<nat>, id: nat) {
    Bare(o, id) && Beyond(after, id)
  }

  /** find_orders_without_items: the first `limit` bare orders beyond the cursor, in key order. */
  function FindWithoutItems(o: Orders, ids: seq<nat>, after: Option<nat>, limit: nat): (r: seq<nat>)
    ensures |r| <= limit && forall id :: id in r ==> Bare(o, id)
  {
    if ids == [] || limit == 0 then []
    else if Wanted(o, after, ids[0]) then [ids[0]] + FindWithoutItems(o, ids[1..], after, limit - 1)
    else FindWithoutItems(o, ids[1..], after, limit)
  }

  function CountWithoutItems(o: Orders, ids: seq<nat>): nat {
    if ids == [] then 0 else (if Bare(o, ids[0]) then 1 else 0) + CountWithoutItems(o, ids[1..])
  }

  ghost predicate Ascending(s: seq<nat>) {
    forall i, j :: 0 <= i < j < |s| ==> s[i] < s[j]
  }

  /** The query returns wanted orders in ascending order and skips none before its last row. */
  lemma {:induction false} QuerySkipsNone(o: Orders, ids: seq<nat>, after: Option<nat>, limit: nat)
    requires Ascending(ids)
    ensures var r := FindWithoutItems(o, ids, after, limit);
            && Ascending(r)
            && (forall id :: id in r ==> id in ids && Wanted(o, after, id))
            && (forall id :: id in ids && Wanted(o, after, id) ==>
                  id in r || (|r| == limit && forall k :: k in r ==> k < id))
  {
    if ids != [] && limit > 0 {
      var head, tail := ids[0], ids[1..];
      var next := if Wanted(o, after, head) then limit - 1 else limit;
      QuerySkipsNone(o, tail, after, next);
      var r := FindWithoutItems(o, tail, after, next);
      assert ids == [head] + tail;
      assert forall id :: id in tail ==> head < id;
      if Wanted(o, after, head) {
        assert forall id :: id in [head] + r <==> id == head || id in r;
        forall k | 0 <= k < |r| ensures head < r[k] {
          assert r[k] in tail;
        }
      }
    }
  }

  /** The reported remainder is the number of orders without items. */
  lemma {:induction false} CountIsCardinality(o: Orders, ids: seq<nat>)
    requires Ascending(ids)
    ensures CountWithoutItems(o, ids) == |set id | id in ids && Bare(o, id)|
  {
    var bare := set id | id in ids && Bare(o, id);
    if ids == [] {
      assert bare == {};
    } else {
      var head, tail := ids[0], ids[1..];
      var rest := set id | id in tail && Bare(o, id);
      forall i | 0 <= i < |tail| ensures head != tail[i] {
        assert ids[0] < ids[i + 1];
      }
      assert CountWithoutItems(o, ids) == CountWithoutItems(o, tail) + if Bare(o, head) then 1 else 0;
      CountIsCardinality(o, tail);
      hide Bare, Ascending, CountWithoutItems;
      assert forall id :: id in ids <==> id == head || id in tail;
      if Bare(o, head) {
        assert bare == rest + {head};
        assert |rest + {head}| == |rest| + 1;
      } else {
        assert bare == rest;
      }
    }
  }

  // ---------------------------------------------------------------- a batch

  datatype Detail = FetchRaises | NotFound | Lines(raws: seq<RawLine>)

  /** What the remote answers for each order, and the orders whose write raises. */
  datatype Remote = Remote(details: map<nat, Detail>, faults: set<nat>) {
    function Of(id: nat): Detail {
      if id in details then details[id] else NotFound
    }
  }

  datatype Attempt = Done(created: nat, deferred: nat) | Missing | Empty | Failure(deferred: nat)

  /** One order: its lines afterwards and what happened. */
  function AttemptOrder(before: seq<Line>, d: Detail, fault: bool): (seq<Line>, Attempt) {
    match d
    case FetchRaises => (before, Failure(0))
    case NotFound => (before, Missing)
    case Lines(raws) =>
      if raws == [] then (before, Empty)
      else
        var p := UpsertLines(before, raws, |raws|);
        if p.broken || fault then (before, Failure(p.deferred))
        else (p.lines, Done(if |p.lines| > |before| then |p.lines| - |before| else 0, p.deferred))
  }

  datatype ItemsTally = ItemsTally(
    processed: nat, enriched: nat, created: nat, unknown: nat, withoutItems: nat, notFound: nat, failed: nat)

  const NO_ITEMS := ItemsTally(0, 0, 0, 0, 0, 0, 0)

  function CountAttempt(t: ItemsTally, a: Attempt): ItemsTally {
    match a
    case Done(n, d) => t.(processed := t.processed + 1, enriched := t.enriched + (if n > 0 then 1 else 0),
                          created := t.created + n, unknown := t.unknown + d)
    case Missing => t.(notFound := t.notFound + 1)
    case Empty => t.(withoutItems := t.withoutItems + 1)
    case Failure(d) => t.(failed := t.failed + 1, unknown := t.unknown + d)
  }

  /** attempts records, per order, whether its last attempt in this operation did not fail. */
  datatype Work = Work(orders: Orders, tally: ItemsTally, attempts: map<nat, bool>)

  function OrderStep(s: Work, id: nat, remote: Remote): Work
    requires id in s.orders.lines
  {
    var (lines, a) := AttemptOrder(s.orders.lines[id], remote.Of(id), id in remote.faults);
    Work(s.orders.(lines := s.orders.lines[id := lines]), CountAttempt(s.tally, a),
         s.attempts[id := !a.Failure?])
  }

  function RunOrders(s: Work, ids: seq<nat>, remote: Remote, n: nat): (r: Work)
    requires n <= |ids| && forall id :: id in ids ==> id in s.orders.lines
    ensures r.orders.index == s.orders.index && r.orders.lines.Keys == s.orders.lines.Keys
  {
    if n == 0 then s else OrderStep(RunOrders(s, ids, remote, n - 1), ids[n - 1], remote)
  }

  /** The live table: every order's items are updated in place. */
  class OrderTable {
    var index: seq<nat>
    var lines: map<nat, seq<Line>>

    function Contents(): Orders
      reads this
    {
      Orders(index, lines)
    }

    /** Fetches one order's detail and files its lines in a savepoint. */
    method Enrich(id: nat, remote: Remote) returns (a: Attempt)
      requires id in lines
      modifies this`lines
      ensures id in lines && (lines[id], a) == AttemptOrder(old(lines)[id], remote.Of(id), id in remote.faults)
      ensures lines == old(lines)[id := lines[id]]
    {
      match remote.Of(id) {
        case FetchRaises => a := Failure(0);
        case NotFound => a := Missing;
        case Lines(raws) =>
          if raws == [] { return Empty; }
          var order := new Order(lines[id]);
          var before := |order.lines|;
          var deferred, raised := order.UpsertOrderItems(raws);
          if raised || id in remote.faults { return Failure(deferred); }
          a := Done(if |order.lines| > before then |order.lines| - before else 0, deferred);
          lines := lines[id := order.lines];
      }
    }

    /** The loop of backfill_order_items over the selected orders. */
    method EnrichAll(ids: seq<nat>, remote: Remote, ghost attempts: map<nat, bool>) returns (t: ItemsTally)
      requires forall id :: id in ids ==> id in lines
      modifies this`lines
      ensures var r := RunOrders(Work(old(Contents()), NO_ITEMS, attempts), ids, remote, |ids|);
              Contents() == r.orders && t == r.tally
    {
      t := NO_ITEMS;
      ghost var start := Work(Contents(), NO_ITEMS, attempts);
      ghost var s := start;
      for i := 0 to |ids|
        invariant s == RunOrders(start, ids, remote, i)
        invariant s.orders == Contents() && s.tally == t
      {
        assert ids[i] in ids;
        s := OrderStep(s, ids[i], remote);
        var a := Enrich(ids[i], remote);
        t := CountAttempt(t, a);
      }
    }
  }

  // ------------------------------------------------------------------- laws

  ghost predicate Partition(t: ItemsTally, seen: nat) {
    t.processed + t.withoutItems + t.notFound + t.failed == seen && t.enriched <= t.processed
    && t.enriched <= t.created
  }

  /** Nothing already there is lost. */
  ghost predicate Grows(before: Orders, after: Orders) {
    && before.lines.Keys <= after.lines.Keys
    && forall id :: HasItems(before, id) ==> HasItems(after, id)
  }

  ghost predicate Ran(s: Work, ids: seq<nat>, n: nat, r: Work)
    requires n <= |ids|
  {
    && r.tally.failed >= s.tally.failed
    && Grows(s.orders, r.orders)
    && (forall id :: id !in ids[..n] ==>
          (id in s.attempts <==> id in r.attempts) && (id in s.attempts ==> s.attempts[id] == r.attempts[id])
          && (id in s.orders.lines ==> id in r.orders.lines && r.orders.lines[id] == s.orders.lines[id]))
    && (forall id :: id in ids[..n] ==> id in r.attempts && (!r.attempts[id] ==> r.tally.failed > s.tally.failed))
  }

  lemma AttemptLaw(before: seq<Line>, d: Detail, fault: bool)
    requires UniqueSkus(before)
    ensures var (after, a) := AttemptOrder(before, d, fault);
            && UniqueSkus(after) && |before| <= |after|
            && (!a.Done? ==> after == before)
            && (a.Done? ==> |after| == |before| + a.created)
  {
    if d.Lines? {
      LinesStayUnique(before, d.raws, |d.raws|);
    }
  }

  lemma StepLaw(q: Work, id: nat, remote: Remote, seen: nat)
    requires ValidOrders(q.orders) && id in q.orders.lines
    ensures var r := OrderStep(q, id, remote);
            && ValidOrders(r.orders) && Grows(q.orders, r.orders)
            && r.attempts[id] == (r.tally.failed == q.tally.failed)
            && r.tally.failed >= q.tally.failed
            && (!r.attempts[id] ==> r.orders.lines[id] == q.orders.lines[id])
            && (Partition(q.tally, seen) ==> Partition(r.tally, seen + 1))
  {
    AttemptLaw(q.orders.lines[id], remote.Of(id), id in remote.faults);
  }

  lemma RanStep(s: Work, ids: seq<nat>, n: nat, q: Work, remote: Remote)
    requires 0 < n <= |ids| && Ran(s, ids, n - 1, q)
    requires ValidOrders(q.orders) && ids[n - 1] in q.orders.lines
    ensures Ran(s, ids, n, OrderStep(q, ids[n - 1], remote))
  {
    hide ValidOrders, AttemptOrder, CountAttempt;
    StepLaw(q, ids[n - 1], remote, 0);
    assert ids[..n] == ids[..n - 1] + [ids[n - 1]];
  }

  lemma RanNone(s: Work, ids: seq<nat>)
    ensures Ran(s, ids, 0, s)
  {
  }

  /** What a run over n selected orders does to the table, the tally and the attempts. */
  lemma {:induction false} RunLaw(s: Work, ids: seq<nat>, remote: Remote, n: nat)
    requires ValidOrders(s.orders) && n <= |ids| && forall id :: id in ids ==> id in s.orders.lines
    ensures var r := RunOrders(s, ids, remote, n);
            ValidOrders(r.orders) && Ran(s, ids, n, r)
    ensures Partition(s.tally, 0) ==> Partition(RunOrders(s, ids, remote, n).tally, n)
  {
    hide ValidOrders, Ran, Partition, OrderStep;
    if n == 0 {
      RanNone(s, ids);
    } else {
      RunLaw(s, ids, remote, n - 1);
      var q := RunOrders(s, ids, remote, n - 1);
      StepLaw(q, ids[n - 1], remote, n - 1);
      RanStep(s, ids, n, q, remote);
    }
  }

  // ------------------------------------------------ what each reply comes to

  datatype Kind = Filed | Failing | Absent | Blank

  /** What the reply for an order comes to, given the lines it has: an exception, from the fetch or from a
      line, an order the remote does not know, a detail without lines, or lines that are filed. */
  function KindOf(o: Orders, remote: Remote, id: nat): Kind
    requires id in o.lines
  {
    match remote.Of(id)
    case FetchRaises => Failing
    case NotFound => Absent
    case Lines(raws) =>
      if raws == [] then Blank
      else if id in remote.faults || UpsertLines(o.lines[id], raws, |raws|).broken then Failing
      else Filed
  }

  /** The lines the order has afterwards: those of the reply, filed one by one, or what it had. */
  function LinesAfter(o: Orders, remote: Remote, id: nat): seq<Line>
    requires id in o.lines
  {
    if KindOf(o, remote, id) == Filed then UpsertLines(o.lines[id], remote.Of(id).raws, |remote.Of(id).raws|).lines
    else o.lines[id]
  }

  /** Lines of the reply that found no product; a failing reply still reports the ones before the failure. */
  function Unfound(o: Orders, remote: Remote, id: nat): nat
    requires id in o.lines
  {
    if remote.Of(id).Lines? then UpsertLines(o.lines[id], remote.Of(id).raws, |remote.Of(id).raws|).deferred else 0
  }

  predicate InTable(o: Orders, ids: seq<nat>) {
    forall id :: id in ids ==> id in o.lines
  }

  function CountKind(o: Orders, remote: Remote, ids: seq<nat>, n: nat, k: Kind): nat
    requires n <= |ids| && InTable(o, ids)
  {
    if n == 0 then 0 else CountKind(o, remote, ids, n - 1, k) + if KindOf(o, remote, ids[n - 1]) == k then 1 else 0
  }

  function CountGrown(o: Orders, remote: Remote, ids: seq<nat>, n: nat): nat
    requires n <= |ids| && InTable(o, ids)
  {
    if n == 0 then 0
    else CountGrown(o, remote, ids, n - 1) + if |LinesAfter(o, remote, ids[n - 1])| > |o.lines[ids[n - 1]]| then 1 else 0
  }

  /** New lines over all the orders. */
  function SumGrowth(o: Orders, remote: Remote, ids: seq<nat>, n: nat): int
    requires n <= |ids| && InTable(o, ids)
  {
    if n == 0 then 0
    else SumGrowth(o, remote, ids, n - 1) + |LinesAfter(o, remote, ids[n - 1])| - |o.lines[ids[n - 1]]|
  }

  function SumUnfound(o: Orders, remote: Remote, ids: seq<nat>, n: nat): nat
    requires n <= |ids| && InTable(o, ids)
  {
    if n == 0 then 0 else SumUnfound(o, remote, ids, n - 1) + Unfound(o, remote, ids[n - 1])
  }

  /** One order's turn, from its reply. */
  lemma TurnByReply(q: Work, o: Orders, id: nat, remote: Remote)
    requires id in q.orders.lines && id in o.lines && q.orders.lines[id] == o.lines[id] && UniqueSkus(o.lines[id])
    ensures var r, k := OrderStep(q, id, remote), KindOf(o, remote, id);
            var growth := |LinesAfter(o, remote, id)| - |o.lines[id]|;
            && r.orders == q.orders.(lines := q.orders.lines[id := LinesAfter(o, remote, id)])
            && r.attempts == q.attempts[id := k != Failing] && growth >= 0
            && r.tally == ItemsTally(
                 q.tally.processed + (if k == Filed then 1 else 0), q.tally.enriched + (if growth > 0 then 1 else 0),
                 q.tally.created + growth, q.tally.unknown + Unfound(o, remote, id),
                 q.tally.withoutItems + (if k == Blank then 1 else 0), q.tally.notFound + (if k == Absent then 1 else 0),
                 q.tally.failed + (if k == Failing then 1 else 0))
  {
    var d := remote.Of(id);
    if d.Lines? {
      LinesStayUnique(o.lines[id], d.raws, |d.raws|);
      hide UpsertLine, UniqueSkus;
    }
  }

  ghost predicate ByReplies(s: Work, ids: seq<nat>, remote: Remote, n: nat, r: Work)
    requires n <= |ids| && InTable(s.orders, ids)
  {
    && r.tally.processed == s.tally.processed + CountKind(s.orders, remote, ids, n, Filed)
    && r.tally.withoutItems == s.tally.withoutItems + CountKind(s.orders, remote, ids, n, Blank)
    && r.tally.notFound == s.tally.notFound + CountKind(s.orders, remote, ids, n, Absent)
    && r.tally.failed == s.tally.failed + CountKind(s.orders, remote, ids, n, Failing)
    && r.tally.enriched == s.tally.enriched + CountGrown(s.orders, remote, ids, n)
    && r.tally.created == s.tally.created + SumGrowth(s.orders, remote, ids, n)
    && r.tally.unknown == s.tally.unknown + SumUnfound(s.orders, remote, ids, n)
  }

  ghost predicate Filing(s: Work, ids: seq<nat>, remote: Remote, n: nat, r: Work)
    requires n <= |ids| && InTable(s.orders, ids)
  {
    && r.orders.lines.Keys == s.orders.lines.Keys
    && (forall id :: id in ids[..n] ==>
          r.orders.lines[id] == LinesAfter(s.orders, remote, id) && id in r.attempts
          && (r.attempts[id] <==> KindOf(s.orders, remote, id) != Failing))
    && (forall id :: id in s.orders.lines && id !in ids[..n] ==> r.orders.lines[id] == s.orders.lines[id])
  }

  lemma FilingStep(s: Work, ids: seq<nat>, remote: Remote, n: nat, q: Work)
    requires ValidOrders(s.orders) && Ascending(ids) && 0 < n <= |ids| && InTable(s.orders, ids)
    requires Filing(s, ids, remote, n - 1, q)
    ensures q.orders.lines[ids[n - 1]] == s.orders.lines[ids[n - 1]]
    ensures Filing(s, ids, remote, n, OrderStep(q, ids[n - 1], remote))
  {
    hide OrderStep, KindOf, LinesAfter, Unfound;
    var id := ids[n - 1];
    assert id in ids && id !in ids[..n - 1];
    assert ids[..n] == ids[..n - 1] + [id];
    TurnByReply(q, s.orders, id, remote);
  }

  lemma ByRepliesStep(s: Work, ids: seq<nat>, remote: Remote, n: nat, q: Work)
    requires 0 < n <= |ids| && InTable(s.orders, ids) && UniqueSkus(s.orders.lines[ids[n - 1]])
    requires ByReplies(s, ids, remote, n - 1, q) && ids[n - 1] in q.orders.lines
    requires q.orders.lines[ids[n - 1]] == s.orders.lines[ids[n - 1]]
    ensures ByReplies(s, ids, remote, n, OrderStep(q, ids[n - 1], remote))
  {
    hide OrderStep, KindOf, LinesAfter, Unfound;
    TurnByReply(q, s.orders, ids[n - 1], remote);
  }

  /** Every order of the selection, each at most once, ends up with exactly the lines its reply gives it,
      every counter is the number of replies of its kind, and created and enriched are the growth. */
  lemma {:induction false} RunByReplies(s: Work, ids: seq<nat>, remote: Remote, n: nat)
    requires ValidOrders(s.orders) && Ascending(ids) && n <= |ids| && InTable(s.orders, ids)
    ensures var r := RunOrders(s, ids, remote, n); ByReplies(s, ids, remote, n, r) && Filing(s, ids, remote, n, r)
  {
    hide OrderStep, ByReplies, Filing, UniqueSkus, Ascending;
    if n == 0 {
      NoReplies(s, ids, remote);
    } else {
      RunByReplies(s, ids, remote, n - 1);
      var q := RunOrders(s, ids, remote, n - 1);
      assert ids[n - 1] in ids;
      FilingStep(s, ids, remote, n, q);
      ByRepliesStep(s, ids, remote, n, q);
    }
  }

  lemma NoReplies(s: Work, ids: seq<nat>, remote: Remote)
    requires InTable(s.orders, ids)
    ensures ByReplies(s, ids, remote, 0, s) && Filing(s, ids, remote, 0, s)
  {
  }

  /** The remote answers every order, and files every answer into an order without items. */
  ghost predicate Friendly(remote: Remote) {
    forall id :: !AttemptOrder([], remote.Of(id), id in remote.faults).1.Failure?
  }

  lemma FriendlyStep(q: Work, id: nat, remote: Remote)
    requires id in q.orders.lines && q.orders.lines[id] == [] && Friendly(remote)
    ensures OrderStep(q, id, remote).tally.failed == q.tally.failed
  {
    assert !AttemptOrder([], remote.Of(id), id in remote.faults).1.Failure?;
  }

  /** A run over orders without items fails none of them when the remote is friendly. */
  lemma {:induction false} FriendlyRunDoesNotFail(s: Work, ids: seq<nat>, remote: Remote, n: nat)
    requires ValidOrders(s.orders) && Ascending(ids) && n <= |ids| && Friendly(remote)
    requires forall id :: id in ids ==> id in s.orders.lines && s.orders.lines[id] == []
    ensures RunOrders(s, ids, remote, n).tally.failed == s.tally.failed
  {
    hide OrderStep, ValidOrders, Friendly, Grows;
    if n > 0 {
      FriendlyRunDoesNotFail(s, ids, remote, n - 1);
      RunLaw(s, ids, remote, n - 1);
      var id := ids[n - 1];
      assert id in ids && id !in ids[..n - 1];
      FriendlyStep(RunOrders(s, ids, remote, n - 1), id, remote);
    }
  }

  lemma OtherOrdersStay(q: Work, k: nat, remote: Remote, id: nat)
    requires k in q.orders.lines && id in q.orders.lines && id != k
    ensures var r := OrderStep(q, k, remote);
            r.orders.lines[id] == q.orders.lines[id] && (id in r.attempts <==> id in q.attempts)
            && (id in r.attempts ==> r.attempts[id] == q.attempts[id])
  {
    hide AttemptOrder, CountAttempt;
  }

  /** A failed order keeps exactly the items it had: none of its lines survive the rollback. */
  lemma {:induction false} FailedOrderKeepsNothing(s: Work, ids: seq<nat>, remote: Remote, n: nat, id: nat)
    requires ValidOrders(s.orders) && n <= |ids| && (forall k :: k in ids ==> k in s.orders.lines)
    requires Ascending(ids) && id in ids[..n]
    requires var r := RunOrders(s, ids, remote, n); id in r.attempts && !r.attempts[id]
    ensures RunOrders(s, ids, remote, n).orders.lines[id] == s.orders.lines[id]
  {
    hide OrderStep, ValidOrders, Grows;
    var q := RunOrders(s, ids, remote, n - 1);
    assert ids[..n] == ids[..n - 1] + [ids[n - 1]];
    RunLaw(s, ids, remote, n - 1);
    if id == ids[n - 1] {
      StepLaw(q, id, remote, 0);
      assert id !in ids[..n - 1];
    } else {
      OtherOrdersStay(q, ids[n - 1], remote, id);
      FailedOrderKeepsNothing(s, ids, remote, n - 1, id);
    }
  }
}
