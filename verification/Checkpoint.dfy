/** The persisted checkpoint of one sync operation: leases, takeover, completion replay.
    Times are integer seconds. */
module Checkpoint {
  import opened Common

  const LEASE_SECONDS := 600

  datatype Status = Idle | Running | Failed | Completed

  datatype ItemsResult = ItemsResult(
    selected: nat, processed: nat, ordersEnriched: nat, itemsCreated: nat, unknownProducts: nat,
    detailWithoutItems: nat, notFound: nat, failed: nat, remaining: nat,
    nextCursor: Option<nat>, hasMore: bool, operation: string)

  /** The JSON column `totals`; an absent key is None, 0 or not in `counts`. */
  datatype Totals = Totals(
    operation: Option<string>, expiresAt: Option<int>, takeovers: nat, lastExpiredAt: Option<int>,
    counts: map<string, int>, cursor: Option<Option<nat>>, remaining: Option<nat>,
    lastResult: Option<ItemsResult>)

  const NO_TOTALS := Totals(None, None, 0, None, map[], None, None, None)

  datatype Row = Row(
    currentPage: int, lastCompletedPage: int, status: Status, totals: Totals,
    startedAt: Option<int>, finishedAt: Option<int>, error: Option<string>)

  const NEW_ROW := Row(1, 0, Idle, NO_TOTALS, None, None, None)

  datatype HttpError = OwnedByAnother | GuardBusy

  /** `operation_id or str(uuid4())`: None and the empty string both get a fresh id. */
  function OwnerOr(op: Option<string>, uuid: string): string {
    if op.Some? && op.value != "" then op.value else uuid
  }

  /** Python's `owner != operation_id` and `owner and ...`. */
  predicate OwnedByOther(t: Totals, op: Option<string>) {
    t.operation != op
  }

  predicate Named(t: Totals) {
    t.operation.Some? && t.operation.value != ""
  }

  function LeaseEnd(t: Totals, now: int): int {
    if t.expiresAt.Some? then t.expiresAt.value else now
  }

  /** The claim as a function of the stored row, after the guard is held. */
  function Claim(cp: Option<Row>, op: Option<string>, now: int, uuid: string): Result<Row, HttpError> {
    var t := if cp.Some? then cp.value.totals else NO_TOTALS;
    var expires := LeaseEnd(t, now);
    if cp.Some? && cp.value.status != Completed && OwnedByOther(t, op) && expires > now then
      Err(OwnedByAnother)
    else if cp.Some? && cp.value.status == Completed && Named(t) && op == t.operation then
      Ok(cp.value)
    else
      var restart := cp.None? || cp.value.status == Completed;
      var row := if cp.None? then NEW_ROW else cp.value;
      var row1 := if restart then row.(currentPage := 1, lastCompletedPage := 0, startedAt := Some(now), finishedAt := None)
                  else row;
      var t1 := if restart then NO_TOTALS else t;
      var t2 := if Named(t) && OwnedByOther(t, op) && expires <= now
                then t1.(takeovers := t1.takeovers + 1, lastExpiredAt := Some(expires)) else t1;
      var t3 := t2.(operation := Some(OwnerOr(op, uuid)), expiresAt := Some(now + LEASE_SECONDS));
      Ok(row1.(totals := t3, status := Running, error := None))
  }

  /** The claim starts a new operation, as opposed to continuing or replaying one. */
  predicate Restarts(cp: Option<Row>, op: Option<string>) {
    cp.None? || (cp.value.status == Completed && !(Named(cp.value.totals) && op == cp.value.totals.operation))
  }

  predicate Replays(cp: Option<Row>, op: Option<string>) {
    cp.Some? && cp.value.status == Completed && Named(cp.value.totals) && op == cp.value.totals.operation
  }

  /** The columns `upsert` may be asked to set; None leaves a column alone. */
  datatype Patch = Patch(
    currentPage: Option<int>, lastCompletedPage: Option<int>, status: Option<Status>,
    totals: Option<Totals>, startedAt: Option<Option<int>>, finishedAt: Option<Option<int>>,
    error: Option<Option<string>>)

  const NO_PATCH := Patch(None, None, None, None, None, None, None)

  function Keep<T>(o: Option<T>, old_: T): T {
    if o.Some? then o.value else old_
  }

  function Patched(r: Row, p: Patch): Row {
    Row(Keep(p.currentPage, r.currentPage), Keep(p.lastCompletedPage, r.lastCompletedPage),
        Keep(p.status, r.status), Keep(p.totals, r.totals), Keep(p.startedAt, r.startedAt),
        Keep(p.finishedAt, r.finishedAt), Keep(p.error, r.error))
  }

  /** One transaction's view of the checkpoint table. `guardFree` is what
      pg_try_advisory_xact_lock answers; the lock then lives as long as the transaction. */
  class CheckpointRepository {
    var rows: map<string, Row>
    var holdsGuard: bool

    function Get(entity: string): Option<Row>
      reads this
    {
      if entity in rows then Some(rows[entity]) else None
    }

    method Upsert(entity: string, p: Patch) returns (row: Row)
      modifies this`rows
      ensures row == Patched(if entity in old(rows) then old(rows)[entity] else NEW_ROW, p)
      ensures rows == old(rows)[entity := row]
    {
      row := if entity in rows then rows[entity] else NEW_ROW;
      if p.currentPage.Some? { row := row.(currentPage := p.currentPage.value); }
      if p.lastCompletedPage.Some? { row := row.(lastCompletedPage := p.lastCompletedPage.value); }
      if p.status.Some? { row := row.(status := p.status.value); }
      if p.totals.Some? { row := row.(totals := p.totals.value); }
      if p.startedAt.Some? { row := row.(startedAt := p.startedAt.value); }
      if p.finishedAt.Some? { row := row.(finishedAt := p.finishedAt.value); }
      if p.error.Some? { row := row.(error := p.error.value); }
      rows := rows[entity := row];
    }

    method ClaimOperation(entity: string, op: Option<string>, now: int, uuid: string, guardFree: bool)
      returns (r: Result<Row, HttpError>)
      modifies this
      ensures !(guardFree || old(holdsGuard)) ==> r == Err(GuardBusy) && rows == old(rows) && holdsGuard == old(holdsGuard)
      ensures guardFree || old(holdsGuard) ==> holdsGuard && r == Claim(old(Get(entity)), op, now, uuid)
      ensures r.Err? ==> rows == old(rows)
      ensures r.Ok? ==> rows == old(rows)[entity := r.value]
    {
      if !(guardFree || holdsGuard) { return Err(GuardBusy); }
      holdsGuard := true;
      var cp := Get(entity);
      var totals := if cp.Some? then cp.value.totals else NO_TOTALS;
      var expires := LeaseEnd(totals, now);
      var owner := totals.operation;
      if cp.Some? && cp.value.status != Completed && owner != op && expires > now {
        return Err(OwnedByAnother);
      }
      if cp.Some? && cp.value.status == Completed && Named(totals) && op == owner {
        return Ok(cp.value);
      }
      var named := Named(totals);
      if cp.None? || cp.value.status == Completed {
        totals := NO_TOTALS;
        var _ := Upsert(entity, NO_PATCH.(currentPage := Some(1), lastCompletedPage := Some(0),
                                          startedAt := Some(Some(now)), finishedAt := Some(None)));
      }
      if named && owner != op && expires <= now {
        totals := totals.(takeovers := totals.takeovers + 1, lastExpiredAt := Some(expires));
      }
      totals := totals.(operation := Some(OwnerOr(op, uuid)), expiresAt := Some(now + LEASE_SECONDS));
      var row := Upsert(entity, NO_PATCH.(totals := Some(totals), status := Some(Running), error := Some(None)));
      r := Ok(row);
    }
  }

  // ------------------------------------------------------------------ laws

  /** A live lease keeps every other caller out; nobody else is ever refused. */
  lemma ClaimRefusal(cp: Option<Row>, op: Option<string>, now: int, uuid: string)
    ensures Claim(cp, op, now, uuid).Err? <==>
              (cp.Some? && cp.value.status != Completed
               && cp.value.totals.operation != op
               && cp.value.totals.expiresAt.Some? && cp.value.totals.expiresAt.value > now)
  {
  }

  /** What a granted claim hands over: the pages and the running totals of an unfinished operation
      survive a takeover, a finished one is replayed to its owner and reset for everybody else. */
  lemma ClaimHandsOver(cp: Option<Row>, op: Option<string>, now: int, uuid: string)
    requires Claim(cp, op, now, uuid).Ok?
    ensures var r := Claim(cp, op, now, uuid).value;
            && (Replays(cp, op) ==> r == cp.value)
            && (!Replays(cp, op) ==> r.status == Running && r.totals.operation == Some(OwnerOr(op, uuid))
                                     && r.totals.expiresAt == Some(now + 600) && r.error.None?)
            && (Restarts(cp, op) ==> r.currentPage == 1 && r.lastCompletedPage == 0 && r.totals.counts == map[]
                                     && r.totals.cursor == None && r.totals.lastResult == None
                                     && r.totals.remaining == None && r.startedAt == Some(now) && r.finishedAt == None)
            && (!Restarts(cp, op) ==> r.currentPage == cp.value.currentPage
                                      && r.lastCompletedPage == cp.value.lastCompletedPage
                                      && r.totals.counts == cp.value.totals.counts
                                      && r.totals.cursor == cp.value.totals.cursor
                                      && r.totals.lastResult == cp.value.totals.lastResult
                                      && r.totals.remaining == cp.value.totals.remaining
                                      && r.startedAt == cp.value.startedAt && r.finishedAt == cp.value.finishedAt)
  {
  }

  /** An unfinished operation changes hands only once its lease has run out, and that is counted. */
  lemma TakeoverNeedsExpiry(cp: Option<Row>, op: Option<string>, now: int, uuid: string)
    requires Claim(cp, op, now, uuid).Ok?
    requires cp.Some? && cp.value.status != Completed && Named(cp.value.totals)
    ensures var before, after := cp.value.totals, Claim(cp, op, now, uuid).value.totals;
            && (op != before.operation ==> LeaseEnd(before, now) <= now && after.takeovers == before.takeovers + 1
                                           && after.lastExpiredAt == Some(LeaseEnd(before, now)))
            && (op == before.operation ==> after.takeovers == before.takeovers && after.operation == op
                                           && after.lastExpiredAt == before.lastExpiredAt)
  {
  }

  /** The counter also moves when a new operation starts long after another owner's finished one:
      nothing was taken over, yet `ttl_takeovers` becomes 1. */
  lemma FinishedOperationCountsAsTakeover(cp: Row, op: string, now: int, uuid: string)
    requires cp.status == Completed && Named(cp.totals) && Some(op) != cp.totals.operation
    requires Claim(Some(cp), Some(op), now, uuid).Ok?
    ensures Claim(Some(cp), Some(op), now, uuid).value.totals.takeovers
            == if LeaseEnd(cp.totals, now) <= now then 1 else 0
  {
  }
}
