/** The incremental order sync and the channel backfill: orders found or created by external id,
    one savepoint per order, line errors deferred and recorded once the order is done. */
module OrderSync {
  import opened Common
  import OrderLines

  type Line = OrderLines.Line
  type RawLine = OrderLines.RawLine

  /** Which channel the payload's store resolves to, if it names one and it is known. */
  datatype Store = NoStore | UnknownStore | Known(channel: string)

  datatype RawOrder = RawOrder(id: Option<string>, store: Store, lines: seq<RawLine>)

  datatype Order = Order(externalId: string, channel: Option<string>, lines: seq<Line>)

  datatype Outcome = Created | Updated | Missing | Raised

  /** `str(raw.get("id"))`: an absent id becomes the string "None". */
  function ExternalId(raw: RawOrder): string {
    if raw.id.Some? then raw.id.value else "None"
  }

  function FindOrder(table: seq<Order>, id: string): (i: nat)
    ensures i <= |table|
    ensures i < |table| ==> table[i].externalId == id
    ensures forall j :: 0 <= j < i ==> table[j].externalId != id
  {
    if table == [] then 0 else if table[0].externalId == id then 0 else 1 + FindOrder(table[1..], id)
  }

  /** The lookup raises when two rows match. */
  predicate Ambiguous(table: seq<Order>, id: string) {
    exists i, j :: 0 <= i < j < |table| && table[i].externalId == id && table[j].externalId == id
  }

  function Channel(current: Option<string>, store: Store, preserve: bool): Option<string> {
    if preserve && current.Some? then current else if store.Known? then Some(store.channel) else current
  }

  /** One order in its savepoint: the table afterwards, what happened, and how many line errors were
      deferred. The deferred errors survive even when the order raises and is rolled back. */
  function Upsert(table: seq<Order>, raw: RawOrder, create: bool, preserve: bool, fault: bool): (seq<Order>, Outcome, nat) {
    var id := ExternalId(raw);
    if id == "" || Ambiguous(table, id) then (table, Raised, 0)
    else
      var i := FindOrder(table, id);
      if i == |table| && !create then (table, Missing, 0)
      else
        var old_ := if i < |table| then table[i] else Order(id, None, []);
        var p := OrderLines.UpsertLines(old_.lines, raw.lines, |raw.lines|);
        if p.broken || fault then (table, Raised, p.deferred)
        else
          var order := old_.(channel := Channel(old_.channel, raw.store, preserve), lines := p.lines);
          if i < |table| then (table[i := order], Updated, p.deferred) else (table + [order], Created, p.deferred)
  }

  // --------------------------------------------------------------- _run_sync

  /** An entry of the error log: item `index` failed, or one of its lines named an unknown product. */
  datatype Entry = ItemFailed(index: nat) | LineUnknown(index: nat)

  datatype Sync = Sync(table: seq<Order>, processed: nat, created: nat, updated: nat, failed: nat, log: seq<Entry>)

  function Repeat(e: Entry, n: nat): seq<Entry> {
    seq(n, _ => e)
  }

  /** What one item adds to the log: its own failure first, then its deferred line errors. */
  function Noted(index: nat, o: Outcome, deferred: nat): seq<Entry> {
    (if o.Raised? then [ItemFailed(index)] else []) + Repeat(LineUnknown(index), deferred)
  }

  function SyncStep(s: Sync, raw: RawOrder, index: nat, fault: bool): Sync {
    var (table, o, deferred) := Upsert(s.table, raw, true, false, fault);
    var log := s.log + Noted(index, o, deferred);
    match o
    case Created => s.(table := table, processed := s.processed + 1, created := s.created + 1, log := log)
    case Updated => s.(table := table, processed := s.processed + 1, updated := s.updated + 1, log := log)
    case _ => s.(failed := s.failed + 1, log := log)
  }

  function RunSync(table: seq<Order>, raws: seq<RawOrder>, faults: set<nat>, n: nat): Sync
    requires n <= |raws|
  {
    if n == 0 then Sync(table, 0, 0, 0, 0, [])
    else SyncStep(RunSync(table, raws, faults, n - 1), raws[n - 1], n - 1, (n - 1) in faults)
  }

  // ---------------------------------------------------------- backfill_orders

  datatype Reply = FetchRaises | NotFound | Payload(raw: RawOrder)

  datatype Backfill = Backfill(
    table: seq<Order>, eligible: nat, processed: nat, withChannel: nat, withoutStore: nat, unmatched: nat,
    missingLocal: nat, alreadyLinked: nat, notFound: nat, failed: nat, aborted: bool)

  /** aborted: the first lookup, which no `try` surrounds, found two rows. */
  function BackfillStep(b: Backfill, id: string, reply: Reply, fault: bool): Backfill {
    var i := FindOrder(b.table, id);
    if b.aborted || Ambiguous(b.table, id) then b.(aborted := true)
    else if i == |b.table| then b.(missingLocal := b.missingLocal + 1)
    else if b.table[i].channel.Some? then b.(alreadyLinked := b.alreadyLinked + 1)
    else
      var e := b.(eligible := b.eligible + 1);
      match reply
      case FetchRaises => e.(failed := e.failed + 1)
      case NotFound => e.(notFound := e.notFound + 1)
      case Payload(raw) =>
        var (table, o, _) := Upsert(b.table, raw, false, true, fault);
        if o.Missing? then e.(missingLocal := e.missingLocal + 1)
        else if o.Raised? then e.(failed := e.failed + 1)
        else
          var p := e.(table := table, processed := e.processed + 1);
          match raw.store
          case NoStore => p.(withoutStore := p.withoutStore + 1)
          case UnknownStore => p.(unmatched := p.unmatched + 1)
          case Known(_) => p.(withChannel := p.withChannel + 1)
  }

  function RunBackfill(table: seq<Order>, ids: seq<string>, replies: seq<Reply>, faults: set<nat>, n: nat): Backfill
    requires n <= |ids| == |replies|
  {
    if n == 0 then Backfill(table, 0, 0, 0, 0, 0, 0, 0, 0, 0, false)
    else BackfillStep(RunBackfill(table, ids, replies, faults, n - 1), ids[n - 1], replies[n - 1], (n - 1) in faults)
  }

  class OrderSyncService {
    var table: seq<Order>
    var deferred: seq<Entry>
    var log: seq<Entry>

    /** _upsert_order inside begin_nested: line errors go to the service's own list. */
    method UpsertOrder(raw: RawOrder, index: nat, create: bool, preserve: bool, fault: bool) returns (o: Outcome)
      modifies this`table, this`deferred
      ensures var (after, outcome, errors) := Upsert(old(table), raw, create, preserve, fault);
              table == after && o == outcome && deferred == old(deferred) + Repeat(LineUnknown(index), errors)
    {
      var id := ExternalId(raw);
      var none: seq<Entry> := Repeat(LineUnknown(index), 0);
      assert none == [] && deferred + none == deferred;
      if id == "" || Ambiguous(table, id) { return Raised; }
      var i := FindOrder(table, id);
      if i == |table| && !create { return Missing; }
      var order := if i < |table| then table[i] else Order(id, None, []);
      o := if i < |table| then Updated else Created;
      if !(preserve && order.channel.Some?) {
        if raw.store.Known? { order := order.(channel := Some(raw.store.channel)); }
      }
      var live := new OrderLines.Order(order.lines);
      var errors, raised := live.UpsertOrderItems(raw.lines);
      deferred := deferred + Repeat(LineUnknown(index), errors);
      if raised || fault { return Raised; }
      order := order.(lines := live.lines);
      if i < |table| { table := table[i := order]; } else { table := table + [order]; }
    }

    /** errors, self._deferred = self._deferred, []; then record each. */
    method RecordDeferred()
      modifies this`deferred, this`log
      ensures deferred == [] && log == old(log) + old(deferred)
    {
      var errors := deferred;
      deferred := [];
      log := log + errors;
    }

    /** The try/except/finally around one item: an exception is logged, then the deferred errors are drained. */
    method AttemptOrder(raw: RawOrder, index: nat, create: bool, preserve: bool, fault: bool) returns (o: Outcome)
      requires deferred == []
      modifies this
      ensures var (after, outcome, errors) := Upsert(old(table), raw, create, preserve, fault);
              table == after && o == outcome && log == old(log) + Noted(index, o, errors)
      ensures deferred == []
    {
      hide Upsert, Repeat;
      o := UpsertOrder(raw, index, create, preserve, fault);
      if o.Raised? { log := log + [ItemFailed(index)]; }
      RecordDeferred();
    }

    /** The item loop of _run_sync; the deferred errors are drained after every item. */
    method RunOrderSync(raws: seq<RawOrder>, faults: set<nat>)
      returns (processed: nat, created: nat, updated: nat, failed: nat)
      requires deferred == [] && log == []
      modifies this
      ensures deferred == []
      ensures RunSync(old(table), raws, faults, |raws|) == Sync(table, processed, created, updated, failed, log)
    {
      hide Upsert, Noted;
      processed, created, updated, failed := 0, 0, 0, 0;
      for n := 0 to |raws|
        invariant deferred == []
        invariant RunSync(old(table), raws, faults, n) == Sync(table, processed, created, updated, failed, log)
      {
        FailureKeepsTable(table, raws[n], true, false, n in faults);
        var o := AttemptOrder(raws[n], n, true, false, n in faults);
        if o.Raised? || o.Missing? {
          failed := failed + 1;
        } else {
          processed := processed + 1;
          if o.Created? { created := created + 1; } else { updated := updated + 1; }
        }
      }
    }

    /** The loop of backfill_orders. A lookup that finds two rows raises, and the session is rolled back. */
    method BackfillOrders(ids: seq<string>, replies: seq<Reply>, faults: set<nat>)
      returns (r: Result<Backfill, LookupError>)
      requires |ids| == |replies| && deferred == []
      modifies this
      ensures var b := RunBackfill(old(table), ids, replies, faults, |ids|);
              && (r.Err? <==> b.aborted)
              && (r.Err? ==> table == old(table) && log == old(log))
              && (r.Ok? ==> r.value == b && table == b.table)
      ensures deferred == []
    {
      hide Upsert, Noted, Ambiguous;
      var savepoint, logged := table, log;
      var eligible, processed, withChannel, withoutStore, unmatched := 0, 0, 0, 0, 0;
      var missingLocal, alreadyLinked, notFound, failed := 0, 0, 0, 0;
      for n := 0 to |ids|
        invariant deferred == []
        invariant eligible >= 0 && processed >= 0 && withChannel >= 0 && withoutStore >= 0 && unmatched >= 0
        invariant missingLocal >= 0 && alreadyLinked >= 0 && notFound >= 0 && failed >= 0
        invariant RunBackfill(old(table), ids, replies, faults, n)
               == Backfill(table, eligible, processed, withChannel, withoutStore, unmatched,
                           missingLocal, alreadyLinked, notFound, failed, false)
      {
        if Ambiguous(table, ids[n]) {
          AbortStays(old(table), ids, replies, faults, n + 1, |ids|);
          table, log := savepoint, logged;
          return Err(TwoRows);
        }
        var i := FindOrder(table, ids[n]);
        if i == |table| { missingLocal := missingLocal + 1; continue; }
        if table[i].channel.Some? { alreadyLinked := alreadyLinked + 1; continue; }
        eligible := eligible + 1;
        match replies[n] {
          case FetchRaises => failed := failed + 1;
          case NotFound => notFound := notFound + 1;
          case Payload(raw) =>
            FailureKeepsTable(table, raw, false, true, n in faults);
            var o := AttemptOrder(raw, n, false, true, n in faults);
            if o.Missing? { missingLocal := missingLocal + 1; continue; }
            if o.Raised? { failed := failed + 1; continue; }
            processed := processed + 1;
            match raw.store {
              case NoStore => withoutStore := withoutStore + 1;
              case UnknownStore => unmatched := unmatched + 1;
              case Known(_) => withChannel := withChannel + 1;
            }
        }
      }
      r := Ok(Backfill(table, eligible, processed, withChannel, withoutStore, unmatched,
                       missingLocal, alreadyLinked, notFound, failed, false));
    }
  }

  datatype LookupError = TwoRows

  lemma {:induction false} AbortStays(table: seq<Order>, ids: seq<string>, replies: seq<Reply>, faults: set<nat>, m: nat, n: nat)
    requires m <= n <= |ids| == |replies| && RunBackfill(table, ids, replies, faults, m).aborted
    ensures RunBackfill(table, ids, replies, faults, n).aborted
  {
    hide Upsert, Ambiguous;
    if m < n {
      AbortStays(table, ids, replies, faults, m, n - 1);
    }
  }

  lemma FailureKeepsTable(table: seq<Order>, raw: RawOrder, create: bool, preserve: bool, fault: bool)
    ensures var (after, o, _) := Upsert(table, raw, create, preserve, fault);
            (o.Raised? || o.Missing? ==> after == table)
            && (o.Missing? ==> !create) && (o.Created? ==> create)
            && |after| == |table| + (if o.Created? then 1 else 0)
  {
  }

  // ------------------------------------------------------------------- laws

  ghost predicate UniqueIds(table: seq<Order>) {
    forall i, j :: 0 <= i < j < |table| ==> table[i].externalId != table[j].externalId
  }

  ghost predicate UniqueLines(table: seq<Order>) {
    forall i :: 0 <= i < |table| ==> OrderLines.UniqueSkus(table[i].lines)
  }

  /** What one order may change: a failing one nothing, a good one only the order it names. */
  lemma UpsertLaw(table: seq<Order>, raw: RawOrder, create: bool, preserve: bool, fault: bool)
    requires UniqueIds(table) && UniqueLines(table)
    ensures var (after, o, _) := Upsert(table, raw, create, preserve, fault);
            && UniqueIds(after) && UniqueLines(after)
            && |table| <= |after| && (o.Created? <==> |after| > |table|) && (!create ==> !o.Created?)
            && (o.Raised? || o.Missing? ==> after == table)
            && (forall i :: 0 <= i < |table| ==>
                  after[i].externalId == table[i].externalId
                  && (table[i].externalId != ExternalId(raw) ==> after[i] == table[i])
                  && (preserve && table[i].channel.Some? ==> after[i].channel == table[i].channel))
  {
    hide OrderLines.UpsertLines;
    var i := FindOrder(table, ExternalId(raw));
    OrderLines.LinesStayUnique(if i < |table| then table[i].lines else [], raw.lines, |raw.lines|);
  }

  /** The order an item is stored under: its lines are the line-by-line upsert of what it had, and its
      channel is the payload's if that is known and may replace what was there. */
  lemma StoredOrder(table: seq<Order>, raw: RawOrder, create: bool, preserve: bool, fault: bool)
    requires var o := Upsert(table, raw, create, preserve, fault).1; o.Created? || o.Updated?
    ensures var (after, o, errors) := Upsert(table, raw, create, preserve, fault);
            var was, i := FindOrder(table, ExternalId(raw)), FindOrder(after, ExternalId(raw));
            var old_ := if was < |table| then table[was] else Order(ExternalId(raw), None, []);
            && i == was < |after| && (o.Updated? <==> was < |table|)
            && after[i] == Order(old_.externalId, after[i].channel,
                                 OrderLines.UpsertLines(old_.lines, raw.lines, |raw.lines|).lines)
            && errors == OrderLines.UpsertLines(old_.lines, raw.lines, |raw.lines|).deferred
            && (raw.store.Known? && !(preserve && old_.channel.Some?) ==> after[i].channel == Some(raw.store.channel))
            && (!raw.store.Known? || (preserve && old_.channel.Some?) ==> after[i].channel == old_.channel)
  {
    hide OrderLines.UpsertLines, FindOrder, Ambiguous;
    var (after, o, _) := Upsert(table, raw, create, preserve, fault);
    var was := FindOrder(table, ExternalId(raw));
    var order := after[was];
    assert order.externalId == ExternalId(raw);
    assert after == if was < |table| then table[was := order] else table + [order];
    FindOrderAfter(table, ExternalId(raw), order);
  }

  lemma FindOrderAfter(table: seq<Order>, id: string, order: Order)
    requires order.externalId == id
    ensures var was := FindOrder(table, id);
            FindOrder(if was < |table| then table[was := order] else table + [order], id) == was
  {
    hide FindOrder;
    var was := FindOrder(table, id);
    var after := if was < |table| then table[was := order] else table + [order];
    assert after[was] == order;
    forall j | 0 <= j < was ensures after[j].externalId != id {
      assert after[j] == table[j];
    }
    FindOrderIs(after, id, was);
  }

  lemma FindOrderIs(table: seq<Order>, id: string, i: nat)
    requires i < |table| && table[i].externalId == id
    requires forall j :: 0 <= j < i ==> table[j].externalId != id
    ensures FindOrder(table, id) == i
  {
    hide FindOrder;
  }

  /** `str(None)` is not empty: payloads without an id all update one order, filed under "None". */
  lemma MissingIdsShareOneOrder(table: seq<Order>, a: RawOrder, b: RawOrder)
    requires a.id.None? && b.id.None? && !Upsert(table, a, true, false, false).1.Raised?
    ensures var after := Upsert(table, a, true, false, false).0;
            Upsert(after, b, true, false, false).1 in {Updated, Raised}
  {
    FailureKeepsTable(table, a, true, false, false);
    StoredOrder(table, a, true, false, false);
    hide OrderLines.UpsertLines, FindOrder, Ambiguous;
  }

  /** Every run keeps one order per external id and one line per SKU, and its counters partition the list. */
  lemma {:induction false} RunSyncLaw(table: seq<Order>, raws: seq<RawOrder>, faults: set<nat>, n: nat)
    requires UniqueIds(table) && UniqueLines(table) && n <= |raws|
    ensures var s := RunSync(table, raws, faults, n);
            && UniqueIds(s.table) && UniqueLines(s.table)
            && s.processed + s.failed == n && s.created + s.updated == s.processed
            && |s.table| == |table| + s.created
  {
    hide Upsert, UniqueIds, UniqueLines;
    if n > 0 {
      RunSyncLaw(table, raws, faults, n - 1);
      var s := RunSync(table, raws, faults, n - 1);
      UpsertLaw(s.table, raws[n - 1], true, false, (n - 1) in faults);
      FailureKeepsTable(s.table, raws[n - 1], true, false, (n - 1) in faults);
    }
  }

  lemma CountAdd(log: seq<Entry>, more: seq<Entry>, e: Entry)
    ensures multiset(log + more)[e] == multiset(log)[e] + multiset(more)[e]
  {
  }

  lemma {:induction false} RepeatCount(e: Entry, n: nat, f: Entry)
    ensures multiset(Repeat(e, n))[f] == if e == f then n else 0
  {
    if n > 0 {
      assert Repeat(e, n) == Repeat(e, n - 1) + [e];
      RepeatCount(e, n - 1, f);
    }
  }

  lemma NotedCounts(i: nat, o: Outcome, n: nat, e: Entry)
    ensures multiset(Noted(i, o, n))[e]
         == if e == LineUnknown(i) then n else if e == ItemFailed(i) && o.Raised? then 1 else 0
  {
    var head: seq<Entry> := if o.Raised? then [ItemFailed(i)] else [];
    CountAdd(head, Repeat(LineUnknown(i), n), e);
    RepeatCount(LineUnknown(i), n, e);
  }

  /** Entries follow the items' order, and an item's failure stands before everything else it logged. */
  ghost predicate Ordered(log: seq<Entry>, n: nat) {
    && (forall i, j :: 0 <= i < j < |log| ==> log[i].index <= log[j].index)
    && (forall i, j :: 0 <= i < j < |log| && log[j].ItemFailed? ==> log[i].index < log[j].index)
    && (forall i :: 0 <= i < |log| ==> log[i].index < n)
  }

  lemma OrderedAppend(log: seq<Entry>, n: nat, o: Outcome, errors: nat)
    requires Ordered(log, n)
    ensures Ordered(log + Noted(n, o, errors), n + 1)
  {
  }

  /** Item k in the run: whether it raised, and how many of its lines were deferred. */
  function ItemOutcome(table: seq<Order>, raws: seq<RawOrder>, faults: set<nat>, k: nat): (Outcome, nat)
    requires k < |raws|
  {
    var (_, o, errors) := Upsert(RunSync(table, raws, faults, k).table, raws[k], true, false, k in faults);
    (o, errors)
  }

  /** The whole log, entry by entry: the failure of an item once exactly if it raised, its line errors exactly as
      often as its lines were deferred, in the items' order, an item's failure before its line errors. */
  lemma {:induction false} DeferredRecordedOnce(table: seq<Order>, raws: seq<RawOrder>, faults: set<nat>, n: nat, e: Entry)
    requires n <= |raws|
    ensures var log := RunSync(table, raws, faults, n).log;
            && Ordered(log, n)
            && (e.index >= n ==> e !in log)
            && (e.index < n ==>
                  var (o, errors) := ItemOutcome(table, raws, faults, e.index);
                  multiset(log)[e] == if e.LineUnknown? then errors else if o.Raised? then 1 else 0)
  {
    hide Upsert, SyncStep, Ordered, Noted;
    if n == 0 {
      EmptyIsOrdered();
    } else {
      DeferredRecordedOnce(table, raws, faults, n - 1, e);
      var s := RunSync(table, raws, faults, n - 1);
      var (o, errors) := ItemOutcome(table, raws, faults, n - 1);
      SyncStepLog(s, raws[n - 1], n - 1, (n - 1) in faults);
      NotedCounts(n - 1, o, errors, e);
      CountAdd(s.log, Noted(n - 1, o, errors), e);
      OrderedAppend(s.log, n - 1, o, errors);
      assert e in RunSync(table, raws, faults, n).log <==> multiset(RunSync(table, raws, faults, n).log)[e] > 0;
      assert e in s.log <==> multiset(s.log)[e] > 0;
    }
  }

  lemma SyncStepLog(s: Sync, raw: RawOrder, index: nat, fault: bool)
    ensures var (_, o, errors) := Upsert(s.table, raw, true, false, fault);
            SyncStep(s, raw, index, fault).log == s.log + Noted(index, o, errors)
  {
    hide Upsert, Noted;
  }

  lemma EmptyIsOrdered()
    ensures Ordered([], 0)
  {
  }

  /** The items that did not raise, in order. */
  function Survivors(table: seq<Order>, raws: seq<RawOrder>, faults: set<nat>, n: nat): seq<RawOrder>
    requires n <= |raws|
  {
    if n == 0 then []
    else
      var before := Survivors(table, raws, faults, n - 1);
      if Upsert(RunSync(table, raws, faults, n - 1).table, raws[n - 1], true, false, (n - 1) in faults).1.Raised?
      then before else before + [raws[n - 1]]
  }

  lemma FaultOnlyRaises(table: seq<Order>, raw: RawOrder, fault: bool)
    requires !Upsert(table, raw, true, false, fault).1.Raised?
    ensures Upsert(table, raw, true, false, fault) == Upsert(table, raw, true, false, false)
  {
  }

  lemma {:induction false} PrefixRun(table: seq<Order>, raws: seq<RawOrder>, more: seq<RawOrder>, n: nat)
    requires n <= |raws|
    ensures RunSync(table, raws + more, {}, n) == RunSync(table, raws, {}, n)
  {
    hide Upsert, Noted;
    if n > 0 {
      PrefixRun(table, raws, more, n - 1);
    }
  }

  /** The run leaves what a run over only the items that did not raise leaves, and there none raises. */
  lemma {:induction false} RunIsFoldOfSurvivors(table: seq<Order>, raws: seq<RawOrder>, faults: set<nat>, n: nat)
    requires n <= |raws|
    ensures var good := Survivors(table, raws, faults, n);
            var s, clean := RunSync(table, raws, faults, n), RunSync(table, good, {}, |good|);
            && s.table == clean.table && clean.failed == 0
            && s.processed == clean.processed && s.created == clean.created && s.updated == clean.updated
  {
    hide Upsert, Noted;
    if n > 0 {
      RunIsFoldOfSurvivors(table, raws, faults, n - 1);
      var s := RunSync(table, raws, faults, n - 1);
      var raw, fault := raws[n - 1], (n - 1) in faults;
      var good := Survivors(table, raws, faults, n - 1);
      FailureKeepsTable(s.table, raw, true, false, fault);
      if !Upsert(s.table, raw, true, false, fault).1.Raised? {
        FaultOnlyRaises(s.table, raw, fault);
        PrefixRun(table, good, [raw], |good|);
        assert (good + [raw])[|good|] == raw;
      }
    }
  }

  // --------------------------------------------------------- backfill laws

  ghost predicate Balanced(b: Backfill, n: nat) {
    && b.missingLocal + b.alreadyLinked + b.notFound + b.failed + b.processed == n
    && b.withChannel + b.withoutStore + b.unmatched == b.processed
  }

  /** Same orders, in place, and every channel that was set is still the same. */
  ghost predicate KeepsLinks(before: seq<Order>, after: seq<Order>) {
    && |after| == |before|
    && forall i :: 0 <= i < |before| ==>
         after[i].externalId == before[i].externalId
         && (before[i].channel.Some? ==> after[i].channel == before[i].channel)
  }

  lemma SameLinks(table: seq<Order>)
    ensures KeepsLinks(table, table)
  {
  }

  lemma UpsertKeepsLinks(table: seq<Order>, raw: RawOrder, fault: bool)
    requires UniqueIds(table) && UniqueLines(table)
    ensures var (after, o, _) := Upsert(table, raw, false, true, fault);
            KeepsLinks(table, after) && UniqueIds(after) && UniqueLines(after) && !o.Created?
            && (o.Missing? || o.Raised? ==> after == table)
  {
    hide Upsert, UniqueIds, UniqueLines;
    UpsertLaw(table, raw, false, true, fault);
    FailureKeepsTable(table, raw, false, true, fault);
  }

  lemma StepBalances(b: Backfill, id: string, reply: Reply, fault: bool, n: nat)
    requires Balanced(b, n) && !b.aborted && !Ambiguous(b.table, id)
    ensures var next := BackfillStep(b, id, reply, fault); !next.aborted && Balanced(next, n + 1)
  {
    hide Upsert, Ambiguous, FindOrder;
  }

  lemma StepTable(b: Backfill, id: string, reply: Reply, fault: bool)
    ensures var table := BackfillStep(b, id, reply, fault).table;
            table == b.table || (reply.Payload? && table == Upsert(b.table, reply.raw, false, true, fault).0)
  {
    hide Upsert, Ambiguous, FindOrder;
  }

  lemma BackfillStepLaw(b: Backfill, id: string, reply: Reply, fault: bool, n: nat)
    requires Balanced(b, n) && UniqueIds(b.table) && UniqueLines(b.table) && !b.aborted
    ensures var next := BackfillStep(b, id, reply, fault);
            && !next.aborted && Balanced(next, n + 1) && UniqueIds(next.table) && UniqueLines(next.table)
            && KeepsLinks(b.table, next.table)
  {
    assert !Ambiguous(b.table, id);
    hide Upsert, UniqueIds, UniqueLines, Ambiguous, FindOrder, KeepsLinks, BackfillStep, Balanced;
    StepBalances(b, id, reply, fault, n);
    StepTable(b, id, reply, fault);
    SameLinks(b.table);
    if reply.Payload? { UpsertKeepsLinks(b.table, reply.raw, fault); }
  }

  /** Every requested id has exactly one outcome; no order is created, none is unlinked or relinked. */
  lemma {:induction false} BackfillLaw(table: seq<Order>, ids: seq<string>, replies: seq<Reply>, faults: set<nat>, n: nat)
    requires n <= |ids| == |replies| && UniqueIds(table) && UniqueLines(table)
    ensures var b := RunBackfill(table, ids, replies, faults, n);
            !b.aborted && Balanced(b, n) && UniqueIds(b.table) && UniqueLines(b.table) && KeepsLinks(table, b.table)
  {
    hide BackfillStep, UniqueIds, UniqueLines;
    if n > 0 {
      BackfillLaw(table, ids, replies, faults, n - 1);
      BackfillStepLaw(RunBackfill(table, ids, replies, faults, n - 1), ids[n - 1], replies[n - 1],
                      (n - 1) in faults, n - 1);
    }
  }
}
