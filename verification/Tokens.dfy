/** Access tokens: the stored expiry, the double-checked refresh under a row lock, and how far apart
    refreshes are. Times are integer seconds; a token's lifetime is counted from its issue
    (RFC 6749, section 5.1) and refreshing follows section 6 of RFC 6749. */
module Tokens {
  import opened Common

  datatype ConnStatus = Active | Disconnected | RequiresReauthorization

  datatype Token = Token(value: string, refresh: string, issuedAt: int, life: nat)

  /** The row of the integration table. applied is when the tokens were written; no code reads it. */
  datatype Conn = Conn(token: Option<Token>, expiresAt: Option<int>, status: ConnStatus, applied: int)

  function Max(a: int, b: int): int {
    if a > b then a else b
  }

  predicate IsExpired(expiresAt: Option<int>, margin: int, now: int) {
    expiresAt.Some? && now + margin >= expiresAt.value
  }

  function Applied(token: Token, margin: int, now: int): Conn {
    Conn(Some(token), Some(now + Max(token.life - Max(margin, 0), 0)), Active, now)
  }

  predicate Usable(c: Conn) {
    c.token.Some? && c.status == Active
  }

  datatype Reply = Granted(token: Token) | Refused(status: int)

  datatype Failure = PermanentError | RefreshError

  /** What _refresh_access_token_locked leaves and answers, given the provider's reply. */
  function RefreshLocked(c: Conn, margin: int, now: int, reply: Reply, replyAt: int): (Conn, Result<Token, Failure>) {
    if c.token.None? then (c, Err(PermanentError))
    else if !IsExpired(c.expiresAt, margin, now) then (c, Ok(c.token.value))
    else match reply
      case Granted(t) => (Applied(t, margin, replyAt), Ok(t))
      case Refused(status) =>
        if status == 400 || status == 401 then (c.(status := RequiresReauthorization), Err(PermanentError))
        else (c, Err(RefreshError))
  }

  /** The connection row as one session's live object. */
  class IntegrationConnectionService {
    const margin: int
    var token: Option<Token>
    var expiresAt: Option<int>
    var status: ConnStatus
    var applied: int

    constructor (margin: int, c: Conn)
      ensures this.margin == margin && View() == c
    {
      this.margin := margin;
      token, expiresAt, status, applied := c.token, c.expiresAt, c.status, c.applied;
    }

    function View(): Conn
      reads this
    {
      Conn(token, expiresAt, status, applied)
    }

    method ApplyTokens(t: Token, now: int)
      modifies this
      ensures View() == Applied(t, margin, now)
    {
      var kept := if margin > 0 then margin else 0;
      var life := if t.life - kept > 0 then t.life - kept else 0;
      token, expiresAt, status, applied := Some(t), Some(now + life), Active, now;
    }

    /** `row` is what the locking re-read finds; another session may have refreshed meanwhile. As steps of
        the world below: ReadIsTheUnlockedCheck, LockIsTheReRead and RefreshIsARun. */
    method GetValidAccessToken(now: int, row: Conn, lockedAt: int, reply: Reply, replyAt: int)
      returns (r: Result<Token, Failure>)
      modifies this
      ensures !Usable(old(View())) ==> r == Err(PermanentError) && View() == old(View())
      ensures Usable(old(View())) && !IsExpired(old(expiresAt), margin, now) ==>
                r == Ok(old(token).value) && View() == old(View())
      ensures Usable(old(View())) && IsExpired(old(expiresAt), margin, now) ==>
                (View(), r) == RefreshLocked(row, margin, lockedAt, reply, replyAt)
    {
      if token.None? || status != Active { return Err(PermanentError); }
      if !(expiresAt.Some? && now + margin >= expiresAt.value) { return Ok(token.value); }
      token, expiresAt, status, applied := row.token, row.expiresAt, row.status, row.applied;
      if token.None? { return Err(PermanentError); }
      if !(expiresAt.Some? && lockedAt + margin >= expiresAt.value) { return Ok(token.value); }
      match reply {
        case Granted(t) =>
          ApplyTokens(t, replyAt);
          r := Ok(t);
        case Refused(code) =>
          if code == 400 || code == 401 {
            status := RequiresReauthorization;
            return Err(PermanentError);
          }
          r := Err(RefreshError);
      }
    }
  }

  // -------------------------------------------------------- any number of workers

  /** A refresh call: when it was sent, and once its transaction commits, the lifetime it brought. */
  datatype Call = Call(at: int, life: nat, committed: bool)

  datatype Phase = Wanting | Holding | Calling(sentAt: int) | Answered(local: Conn, call: bool) | Done

  datatype World = World(now: int, db: Conn, lock: Option<nat>, workers: map<nat, Phase>, calls: seq<Call>,
                         served: seq<(Token, int, int)>)

  datatype Action =
    | Tick(seconds: nat)
    | Read(w: nat)
    | Lock(w: nat)
    | Send(w: nat)
    | Receive(w: nat, reply: Reply)
    | Commit(w: nat)
    | Rollback(w: nat)

  predicate In(w: World, id: nat, p: Phase) {
    id in w.workers && w.workers[id] == p
  }

  function Set(w: World, id: nat, p: Phase): World {
    w.(workers := w.workers[id := p])
  }

  /** Serving a stored token is recorded with the moment and the moment its tokens were written. */
  function Serve(w: World): World
    requires w.db.token.Some?
  {
    w.(served := w.served + [(w.db.token.value, w.db.applied, w.now)])
  }

  function Next(w: World, a: Action, margin: int): World {
    match a
    case Tick(d) => w.(now := w.now + d)
    case Read(id) =>
      if id in w.workers || !Usable(w.db) then w
      else if !IsExpired(w.db.expiresAt, margin, w.now) then Set(Serve(w), id, Done)
      else Set(w, id, Wanting)
    case Lock(id) =>
      if !In(w, id, Wanting) || w.lock.Some? then w
      else if w.db.token.None? then Set(w, id, Done)
      else if !IsExpired(w.db.expiresAt, margin, w.now) then
        Set(Serve(w).(lock := Some(id)), id, Answered(w.db, false))
      else Set(w.(lock := Some(id)), id, Holding)
    case Send(id) =>
      if !In(w, id, Holding) || !IsExpired(w.db.expiresAt, margin, w.now) then w
      else Set(w.(calls := w.calls + [Call(w.now, 0, false)]), id, Calling(w.now))
    case Receive(id, reply) =>
      if !(id in w.workers && w.workers[id].Calling?) then w
      else if reply.Granted? && !(w.workers[id].sentAt <= reply.token.issuedAt <= w.now) then w
      else (match reply
            case Granted(t) => Set(w, id, Answered(Applied(t, margin, w.now), true))
            case Refused(status) =>
              if status == 400 || status == 401
              then Set(w, id, Answered(w.db.(status := RequiresReauthorization), false))
              else w)
    case Commit(id) =>
      if !(id in w.workers && w.workers[id].Answered?) then w
      else
        var p := w.workers[id];
        var calls := if p.call && |w.calls| > 0 && p.local.token.Some?
                     then w.calls[|w.calls| - 1 := Call(w.calls[|w.calls| - 1].at, p.local.token.value.life, true)]
                     else w.calls;
        Set(w.(db := p.local, lock := None, calls := calls), id, Done)
    case Rollback(id) =>
      if id !in w.workers then w
      else Set(if w.lock == Some(id) then w.(lock := None) else w, id, Done)
  }

  function Run(w: World, actions: seq<Action>, margin: int): World {
    if actions == [] then w
    else Next(Run(w, actions[..|actions| - 1], margin), actions[|actions| - 1], margin)
  }

  // ------------------------------------- one call of the service, as such steps

  /** The unlocked check is the worker's Read: it raises without a step, serves, or goes on to wait. */
  lemma ReadIsTheUnlockedCheck(w: World, id: nat, margin: int)
    requires id !in w.workers
    ensures !Usable(w.db) ==> Next(w, Read(id), margin) == w
    ensures Usable(w.db) && !IsExpired(w.db.expiresAt, margin, w.now) ==>
              Next(w, Read(id), margin)
              == w.(served := w.served + [(w.db.token.value, w.db.applied, w.now)], workers := w.workers[id := Done])
    ensures Usable(w.db) && IsExpired(w.db.expiresAt, margin, w.now) ==> Next(w, Read(id), margin) == Set(w, id, Wanting)
  {
  }

  /** The re-read under the row lock is Lock: it serves a row another session refreshed, or goes on to send. */
  lemma LockIsTheReRead(w: World, id: nat, margin: int, reply: Reply, replyAt: int)
    requires In(w, id, Wanting) && w.lock.None?
    ensures var (row, r) := RefreshLocked(w.db, margin, w.now, reply, replyAt);
            var w' := Next(w, Lock(id), margin);
            && (w.db.token.None? ==> r == Err(PermanentError) && row == w.db && w' == Set(w, id, Done))
            && (w.db.token.Some? && !IsExpired(w.db.expiresAt, margin, w.now) ==>
                  r == Ok(w.db.token.value) && In(w', id, Answered(row, false))
                  && w'.served == w.served + [(w.db.token.value, w.db.applied, w.now)])
            && (w.db.token.Some? && IsExpired(w.db.expiresAt, margin, w.now) ==> In(w', id, Holding) && w'.lock == Some(id))
  {
  }

  /** Sending and receiving leave in the worker's hands exactly the row that the locked refresh leaves,
      decided on the row it locked; every other answer is an exception and leaves the row alone. */
  lemma ReceiveIsTheRefresh(w: World, locked: World, id: nat, margin: int, reply: Reply)
    requires In(w, id, Calling(locked.now)) && w.db == locked.db && w.db.token.Some?
    requires IsExpired(locked.db.expiresAt, margin, locked.now)
    requires reply.Granted? ==> locked.now <= reply.token.issuedAt <= w.now
    ensures var (row, r) := RefreshLocked(locked.db, margin, locked.now, reply, w.now);
            var w' := Next(w, Receive(id, reply), margin);
            && (r.Ok? ==> In(w', id, Answered(row, true)))
            && (r == Err(PermanentError) ==> In(w', id, Answered(row, false)))
            && (r == Err(RefreshError) ==> w' == w && row == w.db)
  {
  }

  lemma SendIsOneCall(w: World, id: nat, margin: int)
    requires In(w, id, Holding) && IsExpired(w.db.expiresAt, margin, w.now)
    ensures Next(w, Send(id), margin)
         == Set(w.(calls := w.calls + [Call(w.now, 0, false)]), id, Calling(w.now))
  {
  }

  ghost predicate Held(p: Phase) {
    p.Holding? || p.Calling? || p.Answered?
  }

  /** Tokens in a row were issued no later than they were written, and the row's expiry leaves the margin. */
  ghost predicate Honest(c: Conn, margin: int, now: int) {
    c.token.Some? ==> c.expiresAt.Some? && c.token.value.issuedAt <= c.applied <= now
                      && c.expiresAt.value == c.applied + Max(c.token.value.life - Max(margin, 0), 0)
  }

  /** Any call sent after a committed one is at least its lifetime less both margins later. */
  ghost predicate Spaced(calls: seq<Call>, margin: int) {
    forall i, j :: 0 <= i < j < |calls| && calls[i].committed ==>
      calls[j].at >= calls[i].at + calls[i].life - Max(margin, 0) - margin
  }

  /** A committed call's earliest successor time has come, or the stored expiry still holds it off. */
  ghost predicate HeldOff(calls: seq<Call>, expiresAt: Option<int>, margin: int, now: int) {
    forall i :: 0 <= i < |calls| && calls[i].committed ==>
      var free := calls[i].at + calls[i].life - Max(margin, 0) - margin;
      now >= free || (expiresAt.Some? && expiresAt.value - margin >= free)
  }

  /** More than both margins of life left, counted from when the token was written. */
  ghost predicate LongEnough(t: Token, applied: int, at: int, margin: int) {
    t.issuedAt <= applied <= at && applied + t.life - at > Max(margin, 0) + margin
  }

  ghost predicate CallOpen(calls: seq<Call>, sentAt: int, now: int, margin: int) {
    && |calls| > 0 && !calls[|calls| - 1].committed && calls[|calls| - 1].at == sentAt <= now
    && HeldOff(calls, None, margin, now)
  }

  ghost predicate WorkerInv(w: World, id: nat, margin: int)
    requires id in w.workers
  {
    match w.workers[id]
    case Calling(sentAt) => CallOpen(w.calls, sentAt, w.now, margin)
    case Answered(local, call) =>
      && Honest(local, margin, w.now)
      && (!call ==> local.token == w.db.token && local.expiresAt == w.db.expiresAt && local.applied == w.db.applied)
      && (call ==> local.token.Some? && |w.calls| > 0 && w.calls[|w.calls| - 1].at <= local.applied
                   && CallOpen(w.calls, w.calls[|w.calls| - 1].at, w.now, margin))
    case _ => true
  }

  ghost predicate CallsInv(w: World, margin: int) {
    && Honest(w.db, margin, w.now) && Spaced(w.calls, margin)
    && HeldOff(w.calls, w.db.expiresAt, margin, w.now)
    && (forall i :: 0 <= i < |w.calls| ==> w.calls[i].at <= w.now)
  }

  ghost predicate Inv(w: World, margin: int) {
    && CallsInv(w, margin)
    && (forall id :: id in w.workers && Held(w.workers[id]) ==> w.lock == Some(id))
    && (forall id :: id in w.workers ==> WorkerInv(w, id, margin))
    && (forall k :: 0 <= k < |w.served| ==> LongEnough(w.served[k].0, w.served[k].1, w.served[k].2, margin))
  }

  lemma ServeIsLongEnough(w: World, margin: int)
    requires CallsInv(w, margin) && w.db.token.Some? && !IsExpired(w.db.expiresAt, margin, w.now)
    ensures LongEnough(w.db.token.value, w.db.applied, w.now, margin)
  {
  }

  lemma TickStep(w: World, a: Action, margin: int)
    requires Inv(w, margin) && a.Tick?
    ensures Inv(Next(w, a, margin), margin)
  {
    hide LongEnough, IsExpired, Applied;
  }

  lemma RollbackStep(w: World, a: Action, margin: int)
    requires Inv(w, margin) && a.Rollback?
    ensures Inv(Next(w, a, margin), margin)
  {
    hide LongEnough, Honest, Spaced, HeldOff, CallOpen, IsExpired, Applied;
  }

  lemma ServeStep(w: World, a: Action, margin: int)
    requires Inv(w, margin) && (a.Read? || a.Lock?)
    ensures Inv(Next(w, a, margin), margin)
  {
    hide LongEnough, Honest, Spaced, HeldOff, CallOpen, IsExpired, Applied;
    if w.db.token.Some? && !IsExpired(w.db.expiresAt, margin, w.now) {
      ServeIsLongEnough(w, margin);
    }
  }

  lemma SendStep(w: World, a: Action, margin: int)
    requires Inv(w, margin) && a.Send?
    ensures Inv(Next(w, a, margin), margin)
  {
  }

  lemma ReceiveStep(w: World, a: Action, margin: int)
    requires Inv(w, margin) && a.Receive?
    ensures Inv(Next(w, a, margin), margin)
  {
  }

  lemma CommitStep(w: World, a: Action, margin: int)
    requires Inv(w, margin) && a.Commit?
    ensures Inv(Next(w, a, margin), margin)
  {
    if a.w in w.workers && w.workers[a.w].Answered? {
      var w' := Next(w, a, margin);
      assert forall i :: 0 <= i < |w.calls| - 1 ==> w'.calls[i] == w.calls[i];
    }
  }

  lemma StepKeepsInv(w: World, a: Action, margin: int)
    requires Inv(w, margin)
    ensures Inv(Next(w, a, margin), margin)
  {
    hide Inv, Next;
    match a {
      case Send(_) => SendStep(w, a, margin);
      case Receive(_, _) => ReceiveStep(w, a, margin);
      case Commit(_) => CommitStep(w, a, margin);
      case Tick(_) => TickStep(w, a, margin);
      case Rollback(_) => RollbackStep(w, a, margin);
      case _ => ServeStep(w, a, margin);
    }
  }

  lemma {:induction false} RunKeepsInv(w: World, actions: seq<Action>, margin: int)
    requires Inv(w, margin)
    ensures Inv(Run(w, actions, margin), margin)
  {
    hide Inv, Next;
    if actions != [] {
      RunKeepsInv(w, actions[..|actions| - 1], margin);
      StepKeepsInv(Run(w, actions[..|actions| - 1], margin), actions[|actions| - 1], margin);
    }
  }

  predicate By(a: Action, id: nat) {
    !a.Tick? && a.w == id
  }

  /** While a worker waits for its answer nobody else's step touches the row or the worker. */
  lemma OthersWait(w: World, a: Action, id: nat, margin: int)
    requires Inv(w, margin) && id in w.workers && w.workers[id].Calling? && !By(a, id)
    ensures var w' := Next(w, a, margin);
            w'.db == w.db && id in w'.workers && w'.workers[id] == w.workers[id] && w'.now >= w.now
  {
    hide Applied, IsExpired, Honest, Spaced, HeldOff, LongEnough, CallOpen;
  }

  lemma {:induction false} OthersWaitLong(w: World, others: seq<Action>, id: nat, margin: int)
    requires Inv(w, margin) && id in w.workers && w.workers[id].Calling?
    requires forall k :: 0 <= k < |others| ==> !By(others[k], id)
    ensures var w' := Run(w, others, margin);
            w'.db == w.db && id in w'.workers && w'.workers[id] == w.workers[id] && w'.now >= w.now
  {
    hide Inv, Next;
    if others != [] {
      OthersWaitLong(w, others[..|others| - 1], id, margin);
      RunKeepsInv(w, others[..|others| - 1], margin);
      OthersWait(Run(w, others[..|others| - 1], margin), others[|others| - 1], id, margin);
    }
  }

  /** The locked refresh is Lock, Send and Receive, whatever other workers and the clock do between sending
      and receiving: the worker ends up holding the row, and giving the answer, that RefreshLocked says. */
  lemma RefreshIsARun(w: World, id: nat, others: seq<Action>, reply: Reply, margin: int)
    requires Inv(w, margin) && In(w, id, Wanting) && w.lock.None? && w.db.token.Some?
    requires IsExpired(w.db.expiresAt, margin, w.now)
    requires forall k :: 0 <= k < |others| ==> !By(others[k], id)
    requires reply.Granted? ==>
               w.now <= reply.token.issuedAt <= Run(Next(Next(w, Lock(id), margin), Send(id), margin), others, margin).now
    ensures var w2 := Run(Next(Next(w, Lock(id), margin), Send(id), margin), others, margin);
            var w3 := Next(w2, Receive(id, reply), margin);
            var (row, r) := RefreshLocked(w.db, margin, w.now, reply, w2.now);
            && (r.Ok? ==> In(w3, id, Answered(row, true)))
            && (r == Err(PermanentError) ==> In(w3, id, Answered(row, false)))
            && (r == Err(RefreshError) ==> w3 == w2 && row == w2.db)
  {
    LockIsTheReRead(w, id, margin, reply, w.now);
    var w1 := Next(w, Lock(id), margin);
    assert w1.db == w.db && w1.now == w.now;
    SendIsOneCall(w1, id, margin);
    var w1' := Next(w1, Send(id), margin);
    hide Inv, Next, RefreshLocked;
    StepKeepsInv(w, Lock(id), margin);
    StepKeepsInv(w1, Send(id), margin);
    OthersWaitLong(w1', others, id, margin);
    ReceiveIsTheRefresh(Run(w1', others, margin), w, id, margin, reply);
  }

  ghost predicate Initial(w: World, margin: int) {
    w.workers == map[] && w.lock.None? && w.calls == [] && w.served == [] && Honest(w.db, margin, w.now)
  }

  /** Over every run of any number of workers: after a refresh whose transaction commits, no further
      refresh call is sent before its lifetime less both margins has passed. */
  lemma RefreshesAreSpaced(w: World, actions: seq<Action>, margin: int, i: nat, j: nat)
    requires Initial(w, margin)
    requires var calls := Run(w, actions, margin).calls; i < j < |calls| && calls[i].committed
    ensures var calls := Run(w, actions, margin).calls;
            calls[j].at >= calls[i].at + calls[i].life - Max(margin, 0) - margin
  {
    RunKeepsInv(w, actions, margin);
  }

  /** Every token served from the store has more than both margins of its life left, counted from the
      moment it was written; the time from issue to writing is the only thing that can eat into that. */
  lemma ServedTokensLast(w: World, actions: seq<Action>, margin: int, k: nat)
    requires Initial(w, margin) && k < |Run(w, actions, margin).served|
    ensures var (t, applied, at) := Run(w, actions, margin).served[k];
            && t.issuedAt <= applied <= at
            && (t.issuedAt + t.life) - at > Max(margin, 0) + margin - (applied - t.issuedAt)
  {
    RunKeepsInv(w, actions, margin);
  }

  /** A worker that meets an expired row, with nobody in its way, sends a refresh call. */
  lemma FreshWorkerSends(w: World, id: nat, margin: int)
    requires w.lock.None? && id !in w.workers && Usable(w.db) && IsExpired(w.db.expiresAt, margin, w.now)
    ensures var w' := Next(Next(Next(w, Read(id), margin), Lock(id), margin), Send(id), margin);
            w' == w.(lock := Some(id), workers := w'.workers, calls := w.calls + [Call(w.now, 0, false)])
            && w'.workers == w.workers[id := Calling(w.now)]
  {
    var w1 := Next(w, Read(id), margin);
    assert w1 == Set(w, id, Wanting);
    var w2 := Next(w1, Lock(id), margin);
    assert w2 == Set(w1.(lock := Some(id)), id, Holding);
    assert w.workers[id := Wanting][id := Holding][id := Calling(w.now)] == w.workers[id := Calling(w.now)];
  }

  lemma AnsweredThenRolledBack(w: World, id: nat, t: Token, margin: int)
    requires id in w.workers && w.workers[id] == Calling(w.now) && w.lock == Some(id) && t.issuedAt == w.now
    ensures Next(Next(w, Receive(id, Granted(t)), margin), Rollback(id), margin)
         == w.(lock := None, workers := w.workers[id := Done])
  {
    hide Applied;
    assert Next(w, Receive(id, Granted(t)), margin) == Set(w, id, Answered(Applied(t, margin, w.now), true));
    assert w.workers[id := Answered(Applied(t, margin, w.now), true)][id := Done] == w.workers[id := Done];
  }

  /** The commit matters: a worker whose transaction rolls back after the provider answered leaves the
      old row, and the next worker refreshes again at the same instant with the old refresh token. */
  lemma RollbackRepeatsTheRefresh(w: World, t: Token, margin: int)
    requires Initial(w, margin) && Usable(w.db) && IsExpired(w.db.expiresAt, margin, w.now) && t.issuedAt == w.now
    ensures var run := [Read(1), Lock(1), Send(1), Receive(1, Granted(t)), Rollback(1), Read(2), Lock(2), Send(2)];
            Run(w, run, margin).calls == [Call(w.now, 0, false), Call(w.now, 0, false)]
            && Run(w, run, margin).db == w.db
  {
    var run := [Read(1), Lock(1), Send(1), Receive(1, Granted(t)), Rollback(1), Read(2), Lock(2), Send(2)];
    EightSteps(w, run, margin);
    FreshWorkerSends(w, 1, margin);
    var w3 := Next(Next(Next(w, Read(1), margin), Lock(1), margin), Send(1), margin);
    var w5 := Next(Next(w3, Receive(1, Granted(t)), margin), Rollback(1), margin);
    AnsweredThenRolledBack(w3, 1, t, margin);
    hide Next, Run, Applied;
    FreshWorkerSends(w5, 2, margin);
  }

  lemma EightSteps(w: World, s: seq<Action>, margin: int)
    requires |s| == 8
    ensures Run(w, s, margin)
         == Next(Next(Next(Next(Next(Next(Next(Next(w, s[0], margin), s[1], margin), s[2], margin), s[3], margin),
                                s[4], margin), s[5], margin), s[6], margin), s[7], margin)
  {
    hide Next, Run;
    RunExtends(w, s, 8, margin);
    RunExtends(w, s, 7, margin);
    RunExtends(w, s, 6, margin);
    RunExtends(w, s, 5, margin);
    RunExtends(w, s, 4, margin);
    RunExtends(w, s, 3, margin);
    RunExtends(w, s, 2, margin);
    RunExtends(w, s, 1, margin);
    assert s[..8] == s;
  }

  lemma RunExtends(w: World, s: seq<Action>, n: nat, margin: int)
    requires 1 <= n <= |s|
    ensures Run(w, s[..n], margin) == Next(Run(w, s[..n - 1], margin), s[n - 1], margin)
    ensures Run(w, s[..0], margin) == w
  {
    assert s[..n][..n - 1] == s[..n - 1];
  }

  // ------------------------------------------------------------ which token

  /** A granted refresh stores the granted pair under the expiry that keeps the margin, and until that
      expiry less the margin every call answers exactly the granted token. */
  lemma GrantedIsServed(c: Conn, margin: int, now: int, t: Token, replyAt: int)
    requires Usable(c) && IsExpired(c.expiresAt, margin, now)
    ensures var (row, r) := RefreshLocked(c, margin, now, Granted(t), replyAt);
            && r == Ok(t) && row.token == Some(t) && Usable(row)
            && row.expiresAt == Some(replyAt + Max(t.life - Max(margin, 0), 0))
            && forall later :: !IsExpired(row.expiresAt, margin, later) <==>
                 later + margin < replyAt + Max(t.life - Max(margin, 0), 0)
  {
  }

  /** A refused one keeps the pair; 400 and 401 demand a new authorisation, and until then every call fails. */
  lemma RefusedKeepsTokens(c: Conn, margin: int, now: int, status: int, replyAt: int)
    requires Usable(c) && IsExpired(c.expiresAt, margin, now)
    ensures var (row, r) := RefreshLocked(c, margin, now, Refused(status), replyAt);
            && r.Err? && row.token == c.token && row.expiresAt == c.expiresAt
            && (r.error == PermanentError <==> status == 400 || status == 401)
            && (r.error == PermanentError <==> !Usable(row)) && (r.error == RefreshError ==> row == c)
  {
  }

  /** Two calls on the live service: what the first one was granted is what the second one answers. */
  method RefreshThenServe(service: IntegrationConnectionService, now: int, row: Conn, lockedAt: int, t: Token,
                          replyAt: int, later: int)
    returns (first: Result<Token, Failure>, second: Result<Token, Failure>)
    requires Usable(service.View()) && IsExpired(service.expiresAt, service.margin, now)
    requires row.token.Some? && IsExpired(row.expiresAt, service.margin, lockedAt)
    requires later + service.margin < replyAt + Max(t.life - Max(service.margin, 0), 0)
    modifies service
    ensures first == Ok(t) && second == Ok(t) && service.token == Some(t)
  {
    first := service.GetValidAccessToken(now, row, lockedAt, Granted(t), replyAt);
    second := service.GetValidAccessToken(later, service.View(), later, Refused(0), later);
  }

  /** In the run some worker was granted this token, and its transaction committed later. */
  ghost predicate GrantedIn(actions: seq<Action>, t: Token) {
    exists n, m, id :: 0 <= n < m < |actions| && actions[n] == Receive(id, Granted(t)) && actions[m] == Commit(id)
  }

  ghost predicate ReceivedIn(actions: seq<Action>, id: nat, t: Token) {
    exists n :: 0 <= n < |actions| && actions[n] == Receive(id, Granted(t))
  }

  ghost predicate Sourced(start: World, actions: seq<Action>, t: Token) {
    start.db.token == Some(t) || GrantedIn(actions, t)
  }

  /** Where every token in sight comes from. */
  ghost predicate Provenance(start: World, actions: seq<Action>, w: World) {
    && (w.db.token.Some? ==> Sourced(start, actions, w.db.token.value))
    && (forall k :: 0 <= k < |w.served| ==> Sourced(start, actions, w.served[k].0))
    && (forall id :: id in w.workers && w.workers[id].Answered? && w.workers[id].call ==>
          w.workers[id].local.token.Some? && ReceivedIn(actions, id, w.workers[id].local.token.value))
  }

  lemma LongerRun(start: World, actions: seq<Action>, a: Action, t: Token, id: nat)
    ensures Sourced(start, actions, t) ==> Sourced(start, actions + [a], t)
    ensures ReceivedIn(actions, id, t) ==> ReceivedIn(actions + [a], id, t)
    ensures a == Receive(id, Granted(t)) ==> ReceivedIn(actions + [a], id, t)
    ensures ReceivedIn(actions, id, t) && a == Commit(id) ==> Sourced(start, actions + [a], t)
  {
    var more := actions + [a];
    assert more[|actions|] == a;
    if GrantedIn(actions, t) {
      var n, m, w :| 0 <= n < m < |actions| && actions[n] == Receive(w, Granted(t)) && actions[m] == Commit(w);
      assert more[n] == Receive(w, Granted(t)) && more[m] == Commit(w);
    }
    if ReceivedIn(actions, id, t) {
      var n :| 0 <= n < |actions| && actions[n] == Receive(id, Granted(t));
      assert more[n] == Receive(id, Granted(t));
      if a == Commit(id) { assert more[|actions|] == Commit(id); }
    }
  }

  lemma LongerRuns(start: World, actions: seq<Action>, a: Action)
    ensures forall t :: Sourced(start, actions, t) ==> Sourced(start, actions + [a], t)
    ensures forall t, id :: ReceivedIn(actions, id, t) ==> ReceivedIn(actions + [a], id, t)
  {
    hide Sourced, ReceivedIn;
    forall t ensures Sourced(start, actions, t) ==> Sourced(start, actions + [a], t) {
      LongerRun(start, actions, a, t, 0);
    }
    forall t, id ensures ReceivedIn(actions, id, t) ==> ReceivedIn(actions + [a], id, t) {
      LongerRun(start, actions, a, t, id);
    }
  }

  /** Serving hands out the row's token; the clock, a rollback, a lock and a send bring in none. */
  lemma QuietStepKeepsProvenance(start: World, actions: seq<Action>, w: World, a: Action, margin: int)
    requires Provenance(start, actions, w) && !a.Receive? && !a.Commit?
    ensures Provenance(start, actions + [a], Next(w, a, margin))
  {
    LongerRuns(start, actions, a);
    hide Sourced, ReceivedIn, IsExpired, Applied;
  }

  lemma ReceiveKeepsProvenance(start: World, actions: seq<Action>, w: World, a: Action, margin: int)
    requires Provenance(start, actions, w) && a.Receive?
    ensures Provenance(start, actions + [a], Next(w, a, margin))
  {
    LongerRuns(start, actions, a);
    if a.reply.Granted? { LongerRun(start, actions, a, a.reply.token, a.w); }
    hide Sourced, ReceivedIn;
  }

  /** A commit stores what its worker was granted, or the row's own token. */
  lemma CommitKeepsProvenance(start: World, actions: seq<Action>, w: World, a: Action, margin: int)
    requires Inv(w, margin) && Provenance(start, actions, w) && a.Commit?
    ensures Provenance(start, actions + [a], Next(w, a, margin))
  {
    LongerRuns(start, actions, a);
    hide Sourced, ReceivedIn, Honest, Spaced, HeldOff, CallOpen, LongEnough, CallsInv;
    if a.w in w.workers && w.workers[a.w].Answered? && w.workers[a.w].local.token.Some? {
      LongerRun(start, actions, a, w.workers[a.w].local.token.value, a.w);
    }
  }

  lemma StepKeepsProvenance(start: World, actions: seq<Action>, w: World, a: Action, margin: int)
    requires Inv(w, margin) && Provenance(start, actions, w)
    ensures Provenance(start, actions + [a], Next(w, a, margin))
  {
    hide Inv, Next, Provenance;
    match a {
      case Receive(_, _) => ReceiveKeepsProvenance(start, actions, w, a, margin);
      case Commit(_) => CommitKeepsProvenance(start, actions, w, a, margin);
      case _ => QuietStepKeepsProvenance(start, actions, w, a, margin);
    }
  }

  lemma {:induction false} RunKeepsProvenance(start: World, actions: seq<Action>, margin: int)
    requires Initial(start, margin)
    ensures Inv(Run(start, actions, margin), margin) && Provenance(start, actions, Run(start, actions, margin))
  {
    RunKeepsInv(start, actions, margin);
    hide Inv, Next;
    if actions != [] {
      var before, a := actions[..|actions| - 1], actions[|actions| - 1];
      RunKeepsProvenance(start, before, margin);
      StepKeepsProvenance(start, before, Run(start, before, margin), a, margin);
      assert before + [a] == actions;
    }
  }

  /** Over every run of any number of workers, every token served is the one stored at the start or one that
      a worker was granted and whose transaction committed. */
  lemma ServedTokensWereGranted(start: World, actions: seq<Action>, margin: int, k: nat)
    requires Initial(start, margin) && k < |Run(start, actions, margin).served|
    ensures var t := Run(start, actions, margin).served[k].0; start.db.token == Some(t) || GrantedIn(actions, t)
  {
    RunKeepsProvenance(start, actions, margin);
  }
}
