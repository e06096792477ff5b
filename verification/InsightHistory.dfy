/** The timeline is the whole truth: replaying a key's events gives its stored record. */
module InsightHistory {
  import opened Common
  import opened Insights

  /** The fields of a record that its events determine. */
  datatype Image = Image(
    status: Status, version: int, occurrences: int, first: int, last: int, resolvedAt: Option<int>, run: string)

  datatype Replayed = Absent | Present(image: Image) | Illegal

  /** One event. Illegal unless the key's events so far are a prefix of
      CREATED (ACTIVATED UPDATED* RESOLVED)*, and ARCHIVED ends the story. Each non-archiving event
      must carry the next version, an ARCHIVED event the current one. */
  function Apply(r: Replayed, e: Event): Replayed {
    match (r, e.kind)
    case (Absent, Created) =>
      if e.version != 1 then Illegal else Present(Image(NEW, 1, 1, e.timestamp, e.timestamp, None, e.run))
    case (Present(i), Activated) =>
      if e.version != i.version + 1 || !(i.status == NEW || i.status == RESOLVED) then Illegal
      else Present(Image(ACTIVE, e.version, i.occurrences + 1, i.first, e.timestamp, None, e.run))
    case (Present(i), Updated) =>
      if e.version != i.version + 1 || i.status != ACTIVE then Illegal
      else Present(Image(ACTIVE, e.version, i.occurrences + 1, i.first, e.timestamp, None, e.run))
    case (Present(i), Resolved) =>
      if e.version != i.version + 1 || i.status != ACTIVE then Illegal
      else Present(Image(RESOLVED, e.version, i.occurrences, i.first, i.last, Some(e.timestamp), e.run))
    case (Present(i), Archived) =>
      if e.version != i.version || i.status == ARCHIVED then Illegal
      else Present(i.(status := ARCHIVED))
    case _ => Illegal
  }

  /** Replays the events of one key. */
  function Replay(timeline: seq<Event>, key: string): Replayed {
    if timeline == [] then Absent
    else
      var r := Replay(timeline[..|timeline| - 1], key);
      var e := timeline[|timeline| - 1];
      if e.key == key then Apply(r, e) else r
  }

  function ImageOf(s: Ledger, key: string): Replayed {
    if key !in s.records then Absent
    else
      var i := s.records[key];
      Present(Image(i.status, i.version, i.occurrenceCount, i.firstDetectedAt, i.lastDetectedAt, i.resolvedAt,
                    i.lastEvaluationRun))
  }

  ghost predicate Faithful(s: Ledger) {
    OwnKeys(s.records) && forall key :: Replay(s.timeline, key) == ImageOf(s, key)
  }

  /** Every event's id is built from its fields, and its version is at most the record's. */
  ghost predicate Labelled(s: Ledger) {
    forall j :: 0 <= j < |s.timeline| ==>
      var e := s.timeline[j];
      && e.id == BuildEventId(e.key, e.kind, e.version)
      && e.key in s.records && e.version <= s.records[e.key].version
      && (e.kind == Archived ==> s.records[e.key].status == ARCHIVED)
  }

  /** No two events share key, kind and version. */
  ghost predicate Differ(timeline: seq<Event>) {
    forall i, j :: 0 <= i < j < |timeline| ==>
      timeline[i].key != timeline[j].key || timeline[i].kind != timeline[j].kind
      || timeline[i].version != timeline[j].version
  }

  ghost predicate Consistent(s: Ledger) {
    Faithful(s) && Labelled(s) && Differ(s.timeline)
  }

  /** What every builder supplies. */
  predicate FromBuilder(i: Insight) {
    i.version == 1 && i.resolvedAt.None?
  }

  /** One event on `e.key` takes the ledger s to s'. */
  ghost predicate Extends(s: Ledger, s': Ledger, e: Event) {
    && s'.timeline == s.timeline + [e] && OwnKeys(s'.records)
    && (forall key :: key != e.key ==> ImageOf(s', key) == ImageOf(s, key))
    && ImageOf(s', e.key) == Apply(ImageOf(s, e.key), e) && ImageOf(s', e.key).Present?
    && e.id == BuildEventId(e.key, e.kind, e.version)
  }

  /** The new event outranks the key's record, and no event follows an archived one. */
  lemma ExtensionOutranks(s: Ledger, s': Ledger, e: Event)
    requires Extends(s, s', e)
    ensures e.key in s'.records && e.version <= s'.records[e.key].version
    ensures e.kind == Archived ==> s'.records[e.key].status == ARCHIVED
    ensures e.key in s.records ==>
              && s.records[e.key].status != ARCHIVED && s.records[e.key].version <= s'.records[e.key].version
              && (e.kind != Archived ==> e.version > s.records[e.key].version)
    ensures forall key :: key != e.key && key in s.records ==>
              key in s'.records && s'.records[key].version == s.records[key].version
              && s'.records[key].status == s.records[key].status
  {
    hide BuildEventId;
    forall key | key != e.key && key in s.records
      ensures key in s'.records && s'.records[key].version == s.records[key].version
              && s'.records[key].status == s.records[key].status
    {
      assert ImageOf(s', key) == ImageOf(s, key);
    }
  }

  lemma AppendFaithful(s: Ledger, s': Ledger, e: Event)
    requires Faithful(s) && Extends(s, s', e)
    ensures Faithful(s')
  {
    hide BuildEventId, Apply, ImageOf;
    assert s'.timeline[..|s.timeline|] == s.timeline;
    forall key ensures Replay(s'.timeline, key) == ImageOf(s', key) {
      assert Replay(s.timeline, key) == ImageOf(s, key);
    }
  }

  lemma AppendLabelled(s: Ledger, s': Ledger, e: Event)
    requires Labelled(s) && Differ(s.timeline) && Extends(s, s', e)
    ensures Labelled(s') && Differ(s'.timeline)
  {
    ExtensionOutranks(s, s', e);
    hide BuildEventId, Apply, ImageOf;
    forall j | 0 <= j < |s.timeline| && s.timeline[j].key == e.key
      ensures s.timeline[j].kind != e.kind || s.timeline[j].version != e.version
    {
      assert s.timeline[j].version <= s.records[e.key].version;
    }
  }

  lemma AppendOne(s: Ledger, s': Ledger, e: Event)
    requires Consistent(s) && Extends(s, s', e)
    ensures Consistent(s')
  {
    hide Extends, Faithful, Labelled, Differ;
    AppendFaithful(s, s', e);
    AppendLabelled(s, s', e);
  }

  lemma DetectKeepsConsistent(s: Ledger, i: Insight, c: Context)
    requires Consistent(s) && FromBuilder(i)
    ensures Consistent(DetectOne(s, i, c))
  {
    hide Consistent, BuildEventId, Faithful, Labelled, Differ;
    ConsistentOwnsKeys(s);
    var s' := DetectOne(s, i, c);
    if s' != s {
      AppendOne(s, s', s'.timeline[|s.timeline|]);
    }
  }

  lemma ConsistentOwnsKeys(s: Ledger)
    requires Consistent(s)
    ensures OwnKeys(s.records)
  {
  }

  lemma ResolveKeepsConsistent(s: Ledger, a: Insight, c: Context)
    requires Consistent(s) && Find(s, a.key) == Some(a) && a.status == ACTIVE
    ensures Consistent(ResolveOne(s, a, c))
  {
    hide Consistent, BuildEventId, Faithful, Labelled, Differ;
    ConsistentOwnsKeys(s);
    var s' := ResolveOne(s, a, c);
    AppendOne(s, s', s'.timeline[|s.timeline|]);
  }

  lemma ArchiveKeepsConsistent(s: Ledger, key: string, c: Context)
    requires Consistent(s)
    ensures Consistent(DoArchive(s, key, c))
  {
    hide Consistent, BuildEventId, Faithful, Labelled, Differ;
    ConsistentOwnsKeys(s);
    var s' := DoArchive(s, key, c);
    if s' != s {
      AppendOne(s, s', s'.timeline[|s.timeline|]);
    }
  }

  lemma {:induction false} DetectAllKeepsConsistent(s: Ledger, news: seq<Insight>, c: Context, n: nat)
    requires Consistent(s) && n <= |news| && forall i :: 0 <= i < |news| ==> FromBuilder(news[i])
    ensures Consistent(Detect(s, news, c, n).0)
  {
    hide Consistent, DetectOne, Sort;
    if n > 0 {
      DetectAllKeepsConsistent(s, news, c, n - 1);
      DetectKeepsConsistent(Detect(s, news, c, n - 1).0, news[n - 1], c);
    }
  }

  lemma ResolveOneLaw(s: Ledger, a: Insight, c: Context)
    ensures var s' := ResolveOne(s, a, c);
            && StatusOf(s', a.key) == Some(RESOLVED) && s'.records[a.key].key == a.key
            && forall key :: key != a.key ==>
                 Find(s', key) == Find(s, key) && EventsOf(s'.timeline, key) == EventsOf(s.timeline, key)
  {
    hide BuildEventId;
    var s' := ResolveOne(s, a, c);
    var e := s'.timeline[|s.timeline|];
    forall key | key != a.key
      ensures Find(s', key) == Find(s, key) && EventsOf(s'.timeline, key) == EventsOf(s.timeline, key)
    {
      EventsAppend(s.timeline, e, key);
    }
  }

  /** How many events a key has. */
  function EventsOf(timeline: seq<Event>, key: string): nat {
    Tally(timeline, key, true, true)
  }

  lemma EventsAppend(timeline: seq<Event>, e: Event, key: string)
    ensures EventsOf(timeline + [e], key) == EventsOf(timeline, key) + if e.key == key then 1 else 0
  {
    assert (timeline + [e])[..|timeline|] == timeline;
  }

  ghost predicate Touched(news: seq<Insight>, active: seq<Insight>, n: nat, key: string)
    requires n <= |active|
  {
    !Mentions(news, key) && exists j :: 0 <= j < n && active[j].key == key
  }

  /** The second loop resolves exactly the listed keys that were not detected. */
  lemma {:induction false} ResolveLaw(s: Ledger, news: seq<Insight>, active: seq<Insight>, c: Context, n: nat, key: string)
    requires n <= |active|
    ensures var s' := Resolve(s, news, active, c, n).0;
            if Touched(news, active, n, key) then StatusOf(s', key) == Some(RESOLVED)
            else Find(s', key) == Find(s, key) && EventsOf(s'.timeline, key) == EventsOf(s.timeline, key)
  {
    hide ResolveOne, Mentions, EventsOf;
    if n > 0 {
      ResolveLaw(s, news, active, c, n - 1, key);
      var s0 := Resolve(s, news, active, c, n - 1).0;
      var s' := Resolve(s, news, active, c, n).0;
      var a := active[n - 1];
      ResolveOneLaw(s0, a, c);
      assert s' == if Mentions(news, a.key) then s0 else ResolveOne(s0, a, c);
      if a.key != key {
        assert Find(s', key) == Find(s0, key);
        assert StatusOf(s', key) == StatusOf(s0, key);
      }
      assert Touched(news, active, n, key) <==>
             Touched(news, active, n - 1, key) || (!Mentions(news, key) && active[n - 1].key == key);
    }
  }

  /** The returned list names exactly the keys the second loop resolved. */
  lemma {:induction false} ResolvedListLaw(s: Ledger, news: seq<Insight>, active: seq<Insight>, c: Context, n: nat,
                                           key: string)
    requires n <= |active|
    ensures var r := Resolve(s, news, active, c, n).1;
            Mentions(r, key) <==> Touched(news, active, n, key)
  {
    hide ResolveOne;
    if n > 0 {
      ResolvedListLaw(s, news, active, c, n - 1, key);
      var (s0, r0) := Resolve(s, news, active, c, n - 1);
      var a := active[n - 1];
      ResolveOneLaw(s0, a, c);
      MentionsAppend(r0, ResolveOne(s0, a, c).records[a.key], key);
      TouchedNext(news, active, n, key);
      hide Mentions, Touched;
      assert Mentions(Resolve(s, news, active, c, n).1, key)
        <==> Mentions(r0, key) || (!Mentions(news, a.key) && a.key == key);
    }
  }

  /** And with the records that are stored under them, resolved. */
  lemma {:induction false} ResolvedAreStored(s: Ledger, news: seq<Insight>, active: seq<Insight>, c: Context, n: nat)
    requires n <= |active| && forall i, j :: 0 <= i < j < |active| ==> active[i].key != active[j].key
    ensures var (s', r) := Resolve(s, news, active, c, n);
            forall j :: 0 <= j < |r| ==> r[j].status == RESOLVED && Find(s', r[j].key) == Some(r[j])
  {
    hide ResolveOne;
    if n > 0 {
      ResolvedAreStored(s, news, active, c, n - 1);
      var (s0, r0) := Resolve(s, news, active, c, n - 1);
      var a := active[n - 1];
      ResolvedListLaw(s, news, active, c, n - 1, a.key);
      assert forall j :: 0 <= j < |r0| ==> Mentions(news, a.key) || r0[j].key != a.key;
      ResolveOneLaw(s0, a, c);
      hide Mentions;
    }
  }

  lemma MentionsAppend(r: seq<Insight>, i: Insight, key: string)
    ensures Mentions(r + [i], key) <==> Mentions(r, key) || i.key == key
  {
    if Mentions(r, key) {
      var j :| 0 <= j < |r| && r[j].key == key;
      assert (r + [i])[j].key == key;
    }
    assert (r + [i])[|r|] == i;
  }

  lemma TouchedNext(news: seq<Insight>, active: seq<Insight>, n: nat, key: string)
    requires 0 < n <= |active|
    ensures Touched(news, active, n, key)
       <==> Touched(news, active, n - 1, key) || (!Mentions(news, key) && active[n - 1].key == key)
  {
    hide Mentions;
  }

  lemma {:induction false} ResolveAllKeepsConsistent(s: Ledger, news: seq<Insight>, active: seq<Insight>, c: Context, n: nat)
    requires Consistent(s) && ListsActive(s, active) && n <= |active|
    ensures Consistent(Resolve(s, news, active, c, n).0)
  {
    hide Consistent, ResolveOne;
    if n > 0 {
      ResolveAllKeepsConsistent(s, news, active, c, n - 1);
      var s0 := Resolve(s, news, active, c, n - 1).0;
      var a := active[n - 1];
      if !Mentions(news, a.key) {
        ResolveLaw(s, news, active, c, n - 1, a.key);
        assert Find(s0, a.key) == Find(s, a.key);
        ResolveKeepsConsistent(s0, a, c);
      }
    }
  }

  // ---------------------------------------------------------------- whole runs

  /** One call of the engine; `listed` is the order in which the repository lists active records. */
  datatype Call = DoReconcile(news: seq<Insight>, c: Context, listed: seq<Insight>) | DoArchiveKey(key: string, c: Context)

  ghost predicate Allowed(s: Ledger, call: Call) {
    call.DoReconcile? ==>
      && (forall i :: 0 <= i < |call.news| ==> FromBuilder(call.news[i]))
      && ListsActive(Detect(s, call.news, call.c, |call.news|).0, call.listed)
  }

  function After(s: Ledger, call: Call): Ledger {
    match call
    case DoReconcile(news, c, listed) => Resolve(Detect(s, news, c, |news|).0, news, listed, c, |listed|).0
    case DoArchiveKey(key, c) => DoArchive(s, key, c)
  }

  ghost predicate IsRun(calls: seq<Call>) {
    calls == [] || (IsRun(calls[..|calls| - 1]) && Allowed(RunOf(calls[..|calls| - 1]), calls[|calls| - 1]))
  }

  function RunOf(calls: seq<Call>): Ledger {
    if calls == [] then Ledger(map[], []) else After(RunOf(calls[..|calls| - 1]), calls[|calls| - 1])
  }

  /** Every run from an empty repository: each stored record is the replay of its key's events, whose
      order is the legal one, and whose versions count them. */
  lemma {:induction false} RunsAreConsistent(calls: seq<Call>)
    requires IsRun(calls)
    ensures Consistent(RunOf(calls))
  {
    hide Consistent, Detect, Resolve, ListsActive, DoArchive;
    if calls == [] {
      EmptyIsConsistent();
    } else {
      RunsAreConsistent(calls[..|calls| - 1]);
      var s, call := RunOf(calls[..|calls| - 1]), calls[|calls| - 1];
      match call {
        case DoReconcile(news, c, listed) =>
          DetectAllKeepsConsistent(s, news, c, |news|);
          ResolveAllKeepsConsistent(Detect(s, news, c, |news|).0, news, listed, c, |listed|);
        case DoArchiveKey(key, c) => ArchiveKeepsConsistent(s, key, c);
      }
    }
  }

  lemma EmptyIsConsistent()
    ensures Consistent(Ledger(map[], []))
  {
  }

  /** Replay reproduces every record after any run. */
  lemma ReplayIsTheRecord(calls: seq<Call>, key: string)
    requires IsRun(calls)
    ensures var s := RunOf(calls);
            Replay(s.timeline, key) == ImageOf(s, key) && !Replay(s.timeline, key).Illegal?
  {
    RunsAreConsistent(calls);
  }

  /** Event ids never repeat. */
  lemma EventIdsAreUnique(calls: seq<Call>, i: nat, j: nat)
    requires IsRun(calls) && i < j < |RunOf(calls).timeline|
    ensures RunOf(calls).timeline[i].id != RunOf(calls).timeline[j].id
  {
    hide BuildEventId, Faithful, IsRun, RunOf;
    RunsAreConsistent(calls);
    var e, f := RunOf(calls).timeline[i], RunOf(calls).timeline[j];
    if e.id == f.id {
      EventIdInjective(e.key, e.kind, e.version, f.key, f.kind, f.version);
    }
  }

  function Tally(timeline: seq<Event>, key: string, archiving: bool, resolving: bool): nat {
    if timeline == [] then 0
    else
      var e := timeline[|timeline| - 1];
      Tally(timeline[..|timeline| - 1], key, archiving, resolving)
      + if e.key == key && (archiving || e.kind != Archived) && (resolving || e.kind != Resolved) then 1 else 0
  }

  /** A legal replay's version counts the key's lifecycle events and its occurrence count the detections. */
  lemma {:induction false} CountersCount(timeline: seq<Event>, key: string)
    ensures var r := Replay(timeline, key);
            && (r.Absent? ==> Tally(timeline, key, true, true) == 0 && Tally(timeline, key, false, true) == 0
                              && Tally(timeline, key, false, false) == 0)
            && (r.Present? ==> r.image.version == Tally(timeline, key, false, true)
                               && r.image.occurrences == Tally(timeline, key, false, false))
  {
    if timeline != [] {
      CountersCount(timeline[..|timeline| - 1], key);
    }
  }

  // ------------------------------------------------------- one reconcile's effect

  lemma DetectOneLaw(s: Ledger, b: Buckets, i: Insight, c: Context)
    requires OwnKeys(s.records)
    ensures var s', b' := DetectOne(s, i, c), Sort(b, s, i, c);
            && |b'.created| + |b'.activated| + |b'.updated| + |b'.ignored|
               == |b.created| + |b.activated| + |b.updated| + |b.ignored| + 1
            && b'.same == b.same && b'.resolved == b.resolved
            && (forall key :: key != i.key || StatusOf(s, key) == Some(ARCHIVED) ==>
                  Find(s', key) == Find(s, key) && EventsOf(s'.timeline, key) == EventsOf(s.timeline, key))
            && OwnKeys(s'.records)
  {
    hide BuildEventId;
    var s' := DetectOne(s, i, c);
    if s' != s {
      forall key | key != i.key ensures EventsOf(s'.timeline, key) == EventsOf(s.timeline, key) {
        EventsAppend(s.timeline, s'.timeline[|s.timeline|], key);
      }
    }
    if i.key in s.records {
      match s.records[i.key].status { case NEW => case ACTIVE => case RESOLVED => case ARCHIVED => }
    }
  }

  /** Where one detected insight lands, by the status its key had just before: a new key in created, a NEW or
      RESOLVED one in activated, an ACTIVE one in updated, each with the record now stored under the key; an
      archived one in ignored, with the record that stays. No other list moves. */
  lemma DetectOneBuckets(s: Ledger, b: Buckets, i: Insight, c: Context)
    requires OwnKeys(s.records)
    ensures var s', b', st := DetectOne(s, i, c), Sort(b, s, i, c), StatusOf(s, i.key);
            && i.key in s'.records
            && (st == None ==> b' == b.(created := b.created + [s'.records[i.key]]))
            && (st == Some(NEW) || st == Some(RESOLVED) ==> b' == b.(activated := b.activated + [s'.records[i.key]]))
            && (st == Some(ACTIVE) ==> b' == b.(updated := b.updated + [s'.records[i.key]]))
            && (st == Some(ARCHIVED) ==> s' == s && b' == b.(ignored := b.ignored + [s.records[i.key]]))
  {
    hide BuildEventId;
    if i.key in s.records {
      match s.records[i.key].status { case NEW => case ACTIVE => case RESOLVED => case ARCHIVED => }
    }
  }

  /** The record a detection stores: what the builder says, with the key's own history. */
  lemma DetectedRecord(s: Ledger, i: Insight, c: Context)
    requires OwnKeys(s.records) && StatusOf(s, i.key) != Some(ARCHIVED)
    ensures var s' := DetectOne(s, i, c);
            i.key in s'.records && s'.timeline[..|s.timeline|] == s.timeline && |s'.timeline| == |s.timeline| + 1
            && var r, e := s'.records[i.key], s'.timeline[|s.timeline|];
               && r.key == i.key && r.content == i.content && r.archivedAt == i.archivedAt
               && r.lastDetectedAt == c.refDate && r.updatedAt == c.refDate && r.lastEvaluationRun == c.sourceRunId
               && e.key == i.key && e.timestamp == c.refDate && e.run == c.sourceRunId && e.version == r.version
               && (i.key !in s.records ==>
                     r.status == NEW && r.firstDetectedAt == c.refDate && r.occurrenceCount == 1 && r.version == i.version
                     && r.createdAt == i.createdAt && r.resolvedAt == i.resolvedAt && e.kind == Created)
               && (i.key in s.records ==>
                     var old_ := s.records[i.key];
                     && r.status == ACTIVE && r.firstDetectedAt == old_.firstDetectedAt && r.version == old_.version + 1
                     && r.occurrenceCount == old_.occurrenceCount + 1 && r.createdAt == old_.createdAt
                     && (old_.status == ACTIVE ==> e.kind == Updated && r.resolvedAt == i.resolvedAt)
                     && (old_.status != ACTIVE ==> e.kind == Activated && r.resolvedAt == None))
  {
    hide BuildEventId;
    if i.key in s.records {
      match s.records[i.key].status { case NEW => case ACTIVE => case RESOLVED => case ARCHIVED => }
    }
  }

  /** The record a resolution stores: the active one, resolved now. */
  lemma ResolvedRecord(s: Ledger, a: Insight, c: Context)
    ensures var s' := ResolveOne(s, a, c);
            && s'.records[a.key] == a.(status := RESOLVED, version := a.version + 1, resolvedAt := Some(c.refDate),
                                       lastEvaluationRun := c.sourceRunId, updatedAt := c.refDate)
            && s'.timeline == s.timeline + [Event(BuildEventId(a.key, Resolved, a.version + 1), a.key, Resolved,
                                                  c.refDate, c.sourceRunId, a.version + 1)]
  {
    hide BuildEventId;
  }

  function Mentioned(list: seq<Insight>, key: string): nat {
    if list == [] then 0
    else Mentioned(list[..|list| - 1], key) + if list[|list| - 1].key == key then 1 else 0
  }

  lemma MentionedAppend(list: seq<Insight>, i: Insight, key: string)
    ensures Mentioned(list + [i], key) == Mentioned(list, key) + if i.key == key then 1 else 0
  {
    assert (list + [i])[..|list|] == list;
  }

  /** How m detections of a key that had this status share out over created, activated, updated and ignored:
      the first of a new key creates it, the next one activates it, and every later one updates it. */
  function Share(st: Option<Status>, m: nat): (nat, nat, nat, nat) {
    match st
    case None => (if m > 0 then 1 else 0, if m > 1 then 1 else 0, if m > 2 then m - 2 else 0, 0)
    case Some(ACTIVE) => (0, 0, m, 0)
    case Some(ARCHIVED) => (0, 0, 0, m)
    case _ => (0, if m > 0 then 1 else 0, if m > 1 then m - 1 else 0, 0)
  }

  function Shares(b: Buckets, key: string): (nat, nat, nat, nat) {
    (Mentioned(b.created, key), Mentioned(b.activated, key), Mentioned(b.updated, key), Mentioned(b.ignored, key))
  }

  function StatusAfter(st: Option<Status>, m: nat): Option<Status> {
    if m == 0 || st == Some(ARCHIVED) then st else if st.None? && m == 1 then Some(NEW) else Some(ACTIVE)
  }

  /** Appending one record to a list counts once, for its own key. */
  lemma OneMore(b: Buckets, r: Insight, key: string)
    ensures var d := if r.key == key then 1 else 0;
            var (c, a, u, g) := Shares(b, key);
            && Shares(b.(created := b.created + [r]), key) == (c + d, a, u, g)
            && Shares(b.(activated := b.activated + [r]), key) == (c, a + d, u, g)
            && Shares(b.(updated := b.updated + [r]), key) == (c, a, u + d, g)
            && Shares(b.(ignored := b.ignored + [r]), key) == (c, a, u, g + d)
  {
    MentionedAppend(b.created, r, key);
    MentionedAppend(b.activated, r, key);
    MentionedAppend(b.updated, r, key);
    MentionedAppend(b.ignored, r, key);
    hide Mentioned;
  }

  lemma StatusMoves(s: Ledger, i: Insight, c: Context)
    requires OwnKeys(s.records)
    ensures var st, st' := StatusOf(s, i.key), StatusOf(DetectOne(s, i, c), i.key);
            st' == if st == Some(ARCHIVED) then st else if st.None? then Some(NEW) else Some(ACTIVE)
    ensures var s' := DetectOne(s, i, c);
            i.key in s'.records && s'.records[i.key].key == i.key
            && forall key :: key != i.key ==> StatusOf(s', key) == StatusOf(s, key)
  {
    hide BuildEventId;
    if i.key in s.records {
      match s.records[i.key].status { case NEW => case ACTIVE => case RESOLVED => case ARCHIVED => }
    }
  }

  lemma OneShare(s: Ledger, b: Buckets, i: Insight, c: Context, key: string, st: Option<Status>, m: nat)
    requires OwnKeys(s.records) && StatusOf(s, key) == StatusAfter(st, m) && Shares(b, key) == Share(st, m)
    ensures var k := m + if i.key == key then 1 else 0;
            && StatusOf(DetectOne(s, i, c), key) == StatusAfter(st, k)
            && Shares(Sort(b, s, i, c), key) == Share(st, k)
  {
    hide DetectOne, Sort, Shares;
    DetectOneBuckets(s, b, i, c);
    StatusMoves(s, i, c);
    OneMore(b, DetectOne(s, i, c).records[i.key], key);
    hide OwnKeys;
    match StatusOf(s, i.key) {
      case None =>
      case Some(NEW) =>
      case Some(ACTIVE) =>
      case Some(RESOLVED) =>
      case Some(ARCHIVED) =>
    }
  }

  /** Exactly how often a key is in each list after a whole pass. */
  lemma {:induction false} SharesOfPass(s: Ledger, news: seq<Insight>, c: Context, n: nat, key: string)
    requires OwnKeys(s.records) && n <= |news|
    ensures var (s', b) := Detect(s, news, c, n);
            var m := Mentioned(news[..n], key);
            StatusOf(s', key) == StatusAfter(StatusOf(s, key), m) && Shares(b, key) == Share(StatusOf(s, key), m)
  {
    hide DetectOne, Sort, OwnKeys, Share, Shares, StatusAfter, Mentioned;
    if n == 0 {
      assert news[..0] == [];
      NothingShared(StatusOf(s, key), key);
    } else {
      SharesOfPass(s, news, c, n - 1, key);
      DetectLaw(s, news, c, n - 1, key);
      var (s0, b0) := Detect(s, news, c, n - 1);
      OneShare(s0, b0, news[n - 1], c, key, StatusOf(s, key), Mentioned(news[..n - 1], key));
      MentionedAppend(news[..n - 1], news[n - 1], key);
      assert news[..n] == news[..n - 1] + [news[n - 1]];
    }
  }

  lemma NothingShared(st: Option<Status>, key: string)
    ensures Mentioned([], key) == 0 && StatusAfter(st, 0) == st && Shares(NO_BUCKETS, key) == Share(st, 0)
  {
  }

  /** Archiving sets the one status and appends the one event, at the current version. */
  lemma ArchivedRecord(s: Ledger, key: string, c: Context)
    requires key in s.records && s.records[key].status != ARCHIVED
    ensures var s' := DoArchive(s, key, c);
            && s'.records == s.records[key := s.records[key].(status := ARCHIVED)]
            && |s'.timeline| == |s.timeline| + 1 && s'.timeline[..|s.timeline|] == s.timeline
            && var e := s'.timeline[|s.timeline|];
               e.key == key && e.kind == Archived && e.version == s.records[key].version
               && e.timestamp == c.refDate && e.run == c.sourceRunId
  {
    hide BuildEventId;
  }

  lemma {:induction false} DetectLaw(s: Ledger, news: seq<Insight>, c: Context, n: nat, key: string)
    requires OwnKeys(s.records) && n <= |news|
    ensures var (s', b) := Detect(s, news, c, n);
            && |b.created| + |b.activated| + |b.updated| + |b.ignored| == n
            && b.same == [] && b.resolved == []
            && OwnKeys(s'.records)
            && (!Mentions(news, key) || StatusOf(s, key) == Some(ARCHIVED) ==>
                  Find(s', key) == Find(s, key) && EventsOf(s'.timeline, key) == EventsOf(s.timeline, key))
  {
    hide DetectOne, Sort, OwnKeys, EventsOf;
    if n > 0 {
      DetectLaw(s, news, c, n - 1, key);
      var (s0, b0) := Detect(s, news, c, n - 1);
      DetectOneLaw(s0, b0, news[n - 1], c);
    }
  }

  /** After reconcile: nothing is reported unchanged and every input entry, duplicates included, is
      created, activated, updated or ignored, each key as often in each list as its status and the number
      of its entries say; every ACTIVE key was detected; exactly the ACTIVE keys
      that were not detected are listed as resolved, and they are RESOLVED; every other undetected
      record, and every archived one, is as it was and got no event. */
  lemma ReconcileLaw(s: Ledger, news: seq<Insight>, c: Context, listed: seq<Insight>, key: string)
    requires OwnKeys(s.records) && ListsActive(Detect(s, news, c, |news|).0, listed)
    ensures var (s1, b) := Detect(s, news, c, |news|);
            var (s2, resolved) := Resolve(s1, news, listed, c, |listed|);
            && |b.created| + |b.activated| + |b.updated| + |b.ignored| == |news| && b.same == []
            && Shares(b, key) == Share(StatusOf(s, key), Mentioned(news, key))
            && (StatusOf(s2, key) == Some(ACTIVE) ==> Mentions(news, key))
            && (Mentions(resolved, key) <==> !Mentions(news, key) && StatusOf(s, key) == Some(ACTIVE))
            && (Mentions(resolved, key) ==> StatusOf(s2, key) == Some(RESOLVED))
            && (StatusOf(s, key) == Some(ARCHIVED) || (!Mentions(news, key) && !Mentions(resolved, key)) ==>
                  Find(s2, key) == Find(s, key) && EventsOf(s2.timeline, key) == EventsOf(s.timeline, key))
  {
    hide Detect, Resolve, Mentions, EventsOf, Share, Shares, Mentioned, StatusAfter;
    SharesOfPass(s, news, c, |news|, key);
    assert news[..|news|] == news;
    ResolvedListLaw(Detect(s, news, c, |news|).0, news, listed, c, |listed|, key);
    DetectLaw(s, news, c, |news|, key);
    var s1 := Detect(s, news, c, |news|).0;
    ResolveLaw(s1, news, listed, c, |listed|, key);
    if StatusOf(s1, key) == Some(ACTIVE) {
      var j :| 0 <= j < |listed| && listed[j] == s1.records[key];
      assert listed[j].key == key;
    }
  }
}
