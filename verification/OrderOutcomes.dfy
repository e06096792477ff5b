/** What the order sync and the channel backfill do with each item, said of the tables and the remote
    answers alone: which items raise, what is logged for them, and the row and the counter each one leaves. */
module OrderOutcomes {
  import opened Common
  import OrderLines
  import opened OrderSync

  predicate HasOrder(table: seq<Order>, id: string) {
    exists i :: 0 <= i < |table| && table[i].externalId == id
  }

  function LinesAt(table: seq<Order>, id: string): seq<Line> {
    var i := FindOrder(table, id);
    if i < |table| then table[i].lines else []
  }

  /** The payload's lines raise on what the order already holds. */
  predicate LinesRaise(table: seq<Order>, raw: RawOrder) {
    OrderLines.UpsertLines(LinesAt(table, ExternalId(raw)), raw.lines, |raw.lines|).broken
  }

  /** With one order per external id, an item raises exactly when its id is empty, or the order is there or
      may be made and its lines or the flush raise; it is missing when it may not be made. */
  lemma UpsertDecides(table: seq<Order>, raw: RawOrder, create: bool, preserve: bool, fault: bool)
    requires UniqueIds(table)
    ensures var id, o := ExternalId(raw), Upsert(table, raw, create, preserve, fault).1;
            && id == (if raw.id.Some? then raw.id.value else "None")
            && (o.Raised? <==> id == "" || ((create || HasOrder(table, id)) && (fault || LinesRaise(table, raw))))
            && (o.Missing? <==> id != "" && !create && !HasOrder(table, id))
            && (o.Updated? ==> HasOrder(table, id)) && (o.Created? ==> create && !HasOrder(table, id))
  {
    assert !Ambiguous(table, ExternalId(raw));
    hide OrderLines.UpsertLines, Ambiguous;
    assert HasOrder(table, ExternalId(raw)) <==> FindOrder(table, ExternalId(raw)) < |table|;
  }

  // ------------------------------------------------------------------ the log

  /** An item that reached its lines defers exactly those that find no product, up to the one that raised. */
  lemma ErrorsAreUnfound(table: seq<Order>, raw: RawOrder, fault: bool) returns (m: nat)
    requires UniqueIds(table) && UniqueLines(table)
    ensures m <= |raw.lines| && (ExternalId(raw) == "" ==> m == 0)
    ensures Upsert(table, raw, true, false, fault).2
         == OrderLines.CountUnfound(LinesAt(table, ExternalId(raw)), raw.lines, m)
    ensures ExternalId(raw) != "" ==> (m == |raw.lines| <==> !LinesRaise(table, raw))
  {
    assert !Ambiguous(table, ExternalId(raw));
    if ExternalId(raw) == "" { return 0; }
    m := OrderLines.DeferredAreUnfound(LinesAt(table, ExternalId(raw)), raw.lines, |raw.lines|);
    hide OrderLines.UpsertLines, OrderLines.CountUnfound, Ambiguous, UniqueIds;
  }

  // ------------------------------------------------------------- the backfill

  /** What becomes of one requested id. */
  datatype Fate = NoOrder | HasChannel | FetchFailed | RemoteMissing | Refused | WithChannel | WithoutStore | Unmatched

  function FateOf(table: seq<Order>, id: string, reply: Reply, fault: bool): Fate {
    var i := FindOrder(table, id);
    if i == |table| then NoOrder
    else if table[i].channel.Some? then HasChannel
    else if reply.FetchRaises? then FetchFailed
    else if reply.NotFound? then RemoteMissing
    else if id == "" || fault || OrderLines.UpsertLines(table[i].lines, reply.raw.lines, |reply.raw.lines|).broken
    then Refused
    else match reply.raw.store
      case Known(_) => WithChannel
      case NoStore => WithoutStore
      case UnknownStore => Unmatched
  }

  predicate Stored(f: Fate) {
    f.WithChannel? || f.WithoutStore? || f.Unmatched?
  }

  /** The row afterwards: a stored payload's lines on the order's own, and its channel if it is known. */
  function RowAfter(row: Order, f: Fate, reply: Reply): Order {
    if Stored(f) && reply.Payload? then
      Order(row.externalId, if reply.raw.store.Known? then Some(reply.raw.store.channel) else row.channel,
            OrderLines.UpsertLines(row.lines, reply.raw.lines, |reply.raw.lines|).lines)
    else row
  }

  /** The remote answers with the order it was asked for. */
  predicate Answers(reply: Reply, id: string) {
    reply.Payload? ==> reply.raw.id == Some(id)
  }

  lemma StepTouchesOneRow(b: Backfill, id: string, reply: Reply, fault: bool)
    requires UniqueIds(b.table) && !b.aborted && Answers(reply, id)
    ensures var next, i, f := BackfillStep(b, id, reply, fault), FindOrder(b.table, id), FateOf(b.table, id, reply, fault);
            next.table == if i < |b.table| then b.table[i := RowAfter(b.table[i], f, reply)] else b.table
  {
    assert !Ambiguous(b.table, id);
    hide OrderLines.UpsertLines, Ambiguous, UniqueIds;
    var i := FindOrder(b.table, id);
    if i < |b.table| { assert b.table[i := b.table[i]] == b.table; }
  }

  /** One requested id moves the counters of its fate by one, and no others. */
  lemma StepCounts(b: Backfill, id: string, reply: Reply, fault: bool)
    requires UniqueIds(b.table) && !b.aborted && Answers(reply, id)
    ensures var t, f := BackfillStep(b, id, reply, fault).(table := b.table), FateOf(b.table, id, reply, fault);
            && (f.NoOrder? ==> t == b.(missingLocal := b.missingLocal + 1))
            && (f.HasChannel? ==> t == b.(alreadyLinked := b.alreadyLinked + 1))
            && (f.FetchFailed? || f.Refused? ==> t == b.(eligible := b.eligible + 1, failed := b.failed + 1))
            && (f.RemoteMissing? ==> t == b.(eligible := b.eligible + 1, notFound := b.notFound + 1))
            && (f.WithChannel? ==>
                  t == b.(eligible := b.eligible + 1, processed := b.processed + 1, withChannel := b.withChannel + 1))
            && (f.WithoutStore? ==>
                  t == b.(eligible := b.eligible + 1, processed := b.processed + 1, withoutStore := b.withoutStore + 1))
            && (f.Unmatched? ==>
                  t == b.(eligible := b.eligible + 1, processed := b.processed + 1, unmatched := b.unmatched + 1))
  {
    assert !Ambiguous(b.table, id);
    hide OrderLines.UpsertLines, Ambiguous, UniqueIds;
  }

  /** One row after the first n ids: what the fate of the id naming it leaves of it, or as it was. */
  ghost predicate RowReached(row: Order, ids: seq<string>, replies: seq<Reply>, faults: set<nat>, n: nat, after: Order,
                             table: seq<Order>)
    requires n <= |ids| == |replies|
  {
    && after.externalId == row.externalId
    && (forall k :: 0 <= k < n && ids[k] == row.externalId ==>
          after == RowAfter(row, FateOf(table, ids[k], replies[k], k in faults), replies[k]))
    && ((forall k :: 0 <= k < n ==> ids[k] != row.externalId) ==> after == row)
  }

  ghost predicate Reached(table: seq<Order>, ids: seq<string>, replies: seq<Reply>, faults: set<nat>, n: nat,
                          after: seq<Order>)
    requires n <= |ids| == |replies|
  {
    |after| == |table|
    && forall j :: 0 <= j < |table| ==> RowReached(table[j], ids, replies, faults, n, after[j], table)
  }

  function Fates(table: seq<Order>, ids: seq<string>, replies: seq<Reply>, faults: set<nat>, n: nat): (fates: seq<Fate>)
    requires n <= |ids| == |replies|
    ensures |fates| == n && forall k :: 0 <= k < n ==> fates[k] == FateOf(table, ids[k], replies[k], k in faults)
  {
    if n == 0 then []
    else Fates(table, ids, replies, faults, n - 1) + [FateOf(table, ids[n - 1], replies[n - 1], (n - 1) in faults)]
  }

  /** The counters are the numbers of ids with each fate. */
  ghost predicate CountsFates(b: Backfill, fates: multiset<Fate>) {
    && b.missingLocal == fates[NoOrder] && b.alreadyLinked == fates[HasChannel]
    && b.notFound == fates[RemoteMissing] && b.failed == fates[FetchFailed] + fates[Refused]
    && b.withChannel == fates[WithChannel] && b.withoutStore == fates[WithoutStore] && b.unmatched == fates[Unmatched]
    && b.processed == fates[WithChannel] + fates[WithoutStore] + fates[Unmatched]
    && b.eligible == |fates| - fates[NoOrder] - fates[HasChannel]
  }

  lemma SameIdsSameIndex(table: seq<Order>, after: seq<Order>, id: string)
    requires |after| == |table| && forall j :: 0 <= j < |table| ==> after[j].externalId == table[j].externalId
    ensures FindOrder(after, id) == FindOrder(table, id)
  {
    hide FindOrder;
    if FindOrder(table, id) < |table| {
      FindOrderIs(after, id, FindOrder(table, id));
    }
  }

  lemma RowNext(row: Order, ids: seq<string>, replies: seq<Reply>, faults: set<nat>, n: nat, before: Order,
                after: Order, table: seq<Order>)
    requires n < |ids| == |replies| && (forall k :: 0 <= k < n ==> ids[k] != ids[n])
    requires RowReached(row, ids, replies, faults, n, before, table)
    requires if row.externalId == ids[n]
             then after == RowAfter(row, FateOf(table, ids[n], replies[n], n in faults), replies[n]) else after == before
    ensures RowReached(row, ids, replies, faults, n + 1, after, table)
  {
    hide FateOf, OrderLines.UpsertLines;
    assert row.externalId != ids[n] && (forall k :: 0 <= k < n + 1 ==> ids[k] != row.externalId) ==>
             forall k :: 0 <= k < n ==> ids[k] != row.externalId;
  }

  lemma ReachedNext(table: seq<Order>, ids: seq<string>, replies: seq<Reply>, faults: set<nat>, n: nat,
                    before: seq<Order>, after: seq<Order>)
    requires n < |ids| == |replies| && UniqueIds(table) && (forall k :: 0 <= k < n ==> ids[k] != ids[n])
    requires Reached(table, ids, replies, faults, n, before)
    requires var i := FindOrder(table, ids[n]);
             after == if i == |table| then before
                      else before[i := RowAfter(table[i], FateOf(table, ids[n], replies[n], n in faults), replies[n])]
    ensures Reached(table, ids, replies, faults, n + 1, after)
  {
    var i := FindOrder(table, ids[n]);
    hide FateOf, RowAfter, FindOrder, RowReached;
    forall j | 0 <= j < |table| ensures RowReached(table[j], ids, replies, faults, n + 1, after[j], table) {
      assert table[j].externalId == ids[n] <==> j == i;
      RowNext(table[j], ids, replies, faults, n, before[j], after[j], table);
    }
  }

  lemma CountsNext(b: Backfill, next: Backfill, id: string, reply: Reply, fault: bool, fates: seq<Fate>, table: seq<Order>)
    requires UniqueIds(b.table) && !b.aborted && Answers(reply, id) && CountsFates(b, multiset(fates))
    requires next == BackfillStep(b, id, reply, fault) && FateOf(b.table, id, reply, fault) == FateOf(table, id, reply, fault)
    ensures !next.aborted && CountsFates(next, multiset(fates + [FateOf(table, id, reply, fault)]))
  {
    hide BackfillStep, FateOf, UniqueIds;
    StepCounts(b, id, reply, fault);
    var f := FateOf(table, id, reply, fault);
    assert multiset(fates + [f]) == multiset(fates)[f := multiset(fates)[f] + 1];
  }

  lemma NothingReached(table: seq<Order>, ids: seq<string>, replies: seq<Reply>, faults: set<nat>)
    requires |ids| == |replies|
    ensures Reached(table, ids, replies, faults, 0, table)
    ensures CountsFates(RunBackfill(table, ids, replies, faults, 0), multiset([]))
  {
  }

  /** A row that no earlier id named meets the same fate as at the start. */
  lemma SameFate(table: seq<Order>, ids: seq<string>, replies: seq<Reply>, faults: set<nat>, n: nat, after: seq<Order>)
    requires n < |ids| == |replies| && (forall k :: 0 <= k < n ==> ids[k] != ids[n])
    requires Reached(table, ids, replies, faults, n, after)
    ensures var id, reply, fault := ids[n], replies[n], n in faults;
            FateOf(after, id, reply, fault) == FateOf(table, id, reply, fault)
    ensures var i := FindOrder(table, ids[n]);
            |after| == |table| && FindOrder(after, ids[n]) == i && (i < |table| ==> after[i] == table[i])
  {
    hide FindOrder, OrderLines.UpsertLines, RowAfter;
    SameIdsSameIndex(table, after, ids[n]);
  }

  /** A whole backfill over distinct ids, each answered with its own order: every row ends as the payload's
      lines and channel leave what it held at the start, and every counter is the number of ids it names. */
  lemma {:induction false} BackfillIsExact(table: seq<Order>, ids: seq<string>, replies: seq<Reply>, faults: set<nat>, n: nat)
    requires n <= |ids| == |replies| && UniqueIds(table) && UniqueLines(table)
    requires forall i, j :: 0 <= i < j < |ids| ==> ids[i] != ids[j]
    requires forall k :: 0 <= k < |ids| ==> Answers(replies[k], ids[k])
    ensures var b := RunBackfill(table, ids, replies, faults, n);
            && Reached(table, ids, replies, faults, n, b.table)
            && CountsFates(b, multiset(Fates(table, ids, replies, faults, n)))
  {
    hide BackfillStep, FateOf, RowAfter, UniqueIds, UniqueLines, FindOrder, Reached, CountsFates, KeepsLinks, Balanced;
    if n == 0 {
      NothingReached(table, ids, replies, faults);
    } else {
      BackfillIsExact(table, ids, replies, faults, n - 1);
      BackfillLaw(table, ids, replies, faults, n - 1);
      var b := RunBackfill(table, ids, replies, faults, n - 1);
      var id, reply, fault := ids[n - 1], replies[n - 1], (n - 1) in faults;
      SameFate(table, ids, replies, faults, n - 1, b.table);
      StepTouchesOneRow(b, id, reply, fault);
      CountsNext(b, RunBackfill(table, ids, replies, faults, n), id, reply, fault,
                 Fates(table, ids, replies, faults, n - 1), table);
      ReachedNext(table, ids, replies, faults, n - 1, b.table, RunBackfill(table, ids, replies, faults, n).table);
    }
  }
}
