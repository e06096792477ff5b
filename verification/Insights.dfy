/** The executive-insight lifecycle engine: records by key, and an append-only timeline of events. */
module Insights {
  import opened Common

  datatype Status = NEW | ACTIVE | RESOLVED | ARCHIVED

  /** content stands for the descriptive fields, which the lifecycle copies and never reads. */
  datatype Insight = Insight(
    key: string, content: string, status: Status, version: int, firstDetectedAt: int, lastDetectedAt: int,
    occurrenceCount: int, lastEvaluationRun: string, createdAt: int, updatedAt: int,
    resolvedAt: Option<int>, archivedAt: Option<int>)

  datatype EventType = Created | Activated | Updated | Resolved | Archived

  datatype Event = Event(id: string, key: string, kind: EventType, timestamp: int, run: string, version: int)

  datatype Context = Context(refDate: int, sourceRunId: string)

  datatype Transition = ToCreated | ToActivated | ToResolved | ToUpdated | ToIgnored | ToUnchanged

  function ComputeTransition(current: Option<Status>, detected: bool): (Transition, Status) {
    if current.None? && detected then (ToCreated, NEW)
    else if current == Some(ARCHIVED) then (ToIgnored, ARCHIVED)
    else if !detected && current == Some(ACTIVE) then (ToResolved, RESOLVED)
    else if !detected && current.Some? then (ToUnchanged, current.value)
    else if detected && current == Some(NEW) then (ToActivated, ACTIVE)
    else if detected && current == Some(ACTIVE) then (ToUpdated, ACTIVE)
    else if detected && current == Some(RESOLVED) then (ToActivated, ACTIVE)
    else (ToUnchanged, if current.Some? then current.value else NEW)
  }

  function ApplyLifecycle(base: Insight, existing: Option<Insight>, t: Transition, status: Status, c: Context): Insight {
    if t == ToIgnored && existing.Some? then existing.value
    else if t == ToUnchanged && existing.Some? then
      existing.value.(lastEvaluationRun := c.sourceRunId, updatedAt := c.refDate)
    else
      var detected := t != ToResolved;
      var was := existing.Some?;
      base.(
        status := status,
        firstDetectedAt := if was then existing.value.firstDetectedAt else c.refDate,
        lastDetectedAt := if detected || !was then c.refDate else existing.value.lastDetectedAt,
        occurrenceCount := if was && detected then existing.value.occurrenceCount + 1
                           else if was then existing.value.occurrenceCount else 1,
        lastEvaluationRun := c.sourceRunId,
        version := if was then existing.value.version + 1 else base.version,
        resolvedAt := if t == ToResolved then Some(c.refDate) else if t == ToActivated then None else base.resolvedAt,
        createdAt := if was then existing.value.createdAt else base.createdAt,
        updatedAt := c.refDate)
  }

  // ------------------------------------------------------------------ event ids

  function TypeName(k: EventType): string {
    match k
    case Created => "CREATED" case Activated => "ACTIVATED" case Updated => "UPDATED"
    case Resolved => "RESOLVED" case Archived => "ARCHIVED"
  }

  function Digits(n: nat): (s: string)
    ensures |s| > 0 && forall i :: 0 <= i < |s| ==> '0' <= s[i] <= '9'
  {
    if n < 10 then [('0' as int + n) as char] else Digits(n / 10) + [('0' as int + n % 10) as char]
  }

  function Decimal(v: int): string {
    if v >= 0 then Digits(v) else "-" + Digits(-v)
  }

  function BuildEventId(key: string, k: EventType, version: int): string {
    key + ":" + TypeName(k) + ":" + Decimal(version)
  }

  lemma {:induction false} DigitsInjective(a: nat, b: nat)
    requires Digits(a) == Digits(b)
    ensures a == b
  {
    var s, t := Digits(a), Digits(b);
    assert s[|s| - 1] == t[|t| - 1];
    if a < 10 || b < 10 {
      assert |s| == 1 && |t| == 1;
    } else {
      assert s[..|s| - 1] == Digits(a / 10) && t[..|t| - 1] == Digits(b / 10);
      DigitsInjective(a / 10, b / 10);
    }
  }

  lemma SignShows(v: int)
    ensures Decimal(v)[0] == '-' <==> v < 0
  {
  }

  lemma DecimalInjective(a: int, b: int)
    requires Decimal(a) == Decimal(b)
    ensures a == b
  {
    SignShows(a);
    SignShows(b);
    if a >= 0 {
      DigitsInjective(a, b);
    } else {
      assert Decimal(a)[1..] == Digits(-a) && Decimal(b)[1..] == Digits(-b);
      DigitsInjective(-a, -b);
    }
  }

  predicate NoColon(s: string) {
    forall i :: 0 <= i < |s| ==> s[i] != ':'
  }

  /** The last colon splits a string in one way only. */
  lemma SplitAtLastColon(a: string, b: string, c: string, d: string)
    requires a + ":" + b == c + ":" + d && NoColon(b) && NoColon(d)
    ensures a == c && b == d
  {
    var s := a + ":" + b;
    assert s[|a|] == ':' && s[|c|] == ':';
    assert a == s[..|a|] && c == s[..|c|] && b == s[|a| + 1..] && d == s[|c| + 1..];
  }

  function ThirdLetter(k: EventType): char {
    match k case Created => 'E' case Activated => 'T' case Updated => 'D' case Resolved => 'S' case Archived => 'C'
  }

  lemma TypeNameInjective(a: EventType, b: EventType)
    ensures NoColon(TypeName(a)) && (TypeName(a) == TypeName(b) ==> a == b)
  {
    assert TypeName(a)[2] == ThirdLetter(a) && TypeName(b)[2] == ThirdLetter(b);
  }

  lemma DecimalHasNoColon(v: int)
    ensures NoColon(Decimal(v))
  {
  }

  /** An event id determines the key, the type and the version, even when the key contains colons. */
  lemma EventIdInjective(k1: string, t1: EventType, v1: int, k2: string, t2: EventType, v2: int)
    requires BuildEventId(k1, t1, v1) == BuildEventId(k2, t2, v2)
    ensures k1 == k2 && t1 == t2 && v1 == v2
  {
    hide TypeName, Decimal;
    TypeNameInjective(t1, t2);
    TypeNameInjective(t2, t1);
    DecimalHasNoColon(v1);
    DecimalHasNoColon(v2);
    SplitAtLastColon(k1 + ":" + TypeName(t1), Decimal(v1), k2 + ":" + TypeName(t2), Decimal(v2));
    SplitAtLastColon(k1, TypeName(t1), k2, TypeName(t2));
    DecimalInjective(v1, v2);
  }

  // ------------------------------------------------------------ the engine's steps

  datatype Ledger = Ledger(records: map<string, Insight>, timeline: seq<Event>)

  function Find(s: Ledger, key: string): Option<Insight> {
    if key in s.records then Some(s.records[key]) else None
  }

  function KindOf(t: Transition): EventType {
    match t
    case ToCreated => Created case ToActivated => Activated case ToResolved => Resolved case _ => Updated
  }

  function MakeEvent(key: string, k: EventType, version: int, c: Context): Event {
    Event(BuildEventId(key, k, version), key, k, c.refDate, c.sourceRunId, version)
  }

  /** Save the reconciled record and append its event. */
  function Record(s: Ledger, insight: Insight, k: EventType, c: Context): Ledger {
    Ledger(s.records[insight.key := insight], s.timeline + [MakeEvent(insight.key, k, insight.version, c)])
  }

  function StatusOf(s: Ledger, key: string): Option<Status> {
    if key in s.records then Some(s.records[key].status) else None
  }

  /** A detected insight. */
  function DetectOne(s: Ledger, i: Insight, c: Context): Ledger {
    var (t, status) := ComputeTransition(StatusOf(s, i.key), true);
    if t == ToIgnored || (t == ToUnchanged && i.key in s.records) then s
    else Record(s, ApplyLifecycle(i, Find(s, i.key), t, status, c), KindOf(t), c)
  }

  /** A record the repository listed as ACTIVE and no builder detected. */
  function ResolveOne(s: Ledger, active: Insight, c: Context): Ledger {
    var (t, status) := ComputeTransition(Some(ACTIVE), false);
    Record(s, ApplyLifecycle(active, Some(active), t, status, c), Resolved, c)
  }

  datatype Buckets = Buckets(
    created: seq<Insight>, activated: seq<Insight>, updated: seq<Insight>, resolved: seq<Insight>,
    same: seq<Insight>, ignored: seq<Insight>)

  const NO_BUCKETS := Buckets([], [], [], [], [], [])

  function Sort(b: Buckets, s: Ledger, i: Insight, c: Context): Buckets {
    var (t, status) := ComputeTransition(StatusOf(s, i.key), true);
    if t == ToIgnored then b.(ignored := b.ignored + [if i.key in s.records then s.records[i.key] else i])
    else if t == ToUnchanged && i.key in s.records then b.(same := b.same + [s.records[i.key]])
    else
      var saved := ApplyLifecycle(i, Find(s, i.key), t, status, c);
      if t == ToCreated then b.(created := b.created + [saved])
      else if t == ToActivated then b.(activated := b.activated + [saved])
      else b.(updated := b.updated + [saved])
  }

  /** State and buckets after the first n detected insights. */
  function Detect(s: Ledger, news: seq<Insight>, c: Context, n: nat): (Ledger, Buckets)
    requires n <= |news|
  {
    if n == 0 then (s, NO_BUCKETS)
    else
      var (s0, b0) := Detect(s, news, c, n - 1);
      (DetectOne(s0, news[n - 1], c), Sort(b0, s0, news[n - 1], c))
  }

  predicate Mentions(news: seq<Insight>, key: string) {
    exists i :: 0 <= i < |news| && news[i].key == key
  }

  /** State and resolved list after the first n records the repository listed as active. */
  function Resolve(s: Ledger, news: seq<Insight>, active: seq<Insight>, c: Context, n: nat): (Ledger, seq<Insight>)
    requires n <= |active|
  {
    if n == 0 then (s, [])
    else
      var (s0, r) := Resolve(s, news, active, c, n - 1);
      var a := active[n - 1];
      if Mentions(news, a.key) then (s0, r)
      else
        var s1 := ResolveOne(s0, a, c);
        (s1, r + [s1.records[a.key]])
  }

  /** Records are stored under their own key. */
  ghost predicate OwnKeys(records: map<string, Insight>) {
    forall key :: key in records ==> records[key].key == key
  }

  /** findActive: every ACTIVE record once, in whatever order the repository likes. */
  ghost predicate ListsActive(s: Ledger, active: seq<Insight>) {
    && (forall j :: 0 <= j < |active| ==> Find(s, active[j].key) == Some(active[j]) && active[j].status == ACTIVE)
    && (forall i, j :: 0 <= i < j < |active| ==> active[i].key != active[j].key)
    && (forall key :: StatusOf(s, key) == Some(ACTIVE) ==> s.records[key] in active)
  }

  datatype ArchiveError = NotFound | AlreadyArchived

  function DoArchive(s: Ledger, key: string, c: Context): Ledger {
    if key !in s.records || s.records[key].status == ARCHIVED then s
    else
      var i := s.records[key];
      Ledger(s.records[key := i.(status := ARCHIVED)], s.timeline + [MakeEvent(key, Archived, i.version, c)])
  }

  /** The engine with its repository and timeline. */
  class ExecutiveInsightLifecycleEngine {
    var records: map<string, Insight>
    var timeline: seq<Event>

    function Contents(): Ledger
      reads this
    {
      Ledger(records, timeline)
    }

    method Save(insight: Insight, kind: EventType, c: Context)
      requires OwnKeys(records)
      modifies this
      ensures OwnKeys(records)
      ensures Contents() == Record(old(Contents()), insight, kind, c)
    {
      records := records[insight.key := insight];
      timeline := timeline + [MakeEvent(insight.key, kind, insight.version, c)];
    }

    method FindActive() returns (active: seq<Insight>)
      requires OwnKeys(records)
      ensures ListsActive(Contents(), active)
    {
      active := [];
      var keys := records.Keys;
      while keys != {}
        invariant keys <= records.Keys
        invariant forall j :: 0 <= j < |active| ==> active[j].key in records && active[j].key !in keys
        invariant forall j :: 0 <= j < |active| ==> records[active[j].key] == active[j] && active[j].status == ACTIVE
        invariant forall i, j :: 0 <= i < j < |active| ==> active[i].key != active[j].key
        invariant forall key :: key in records && key !in keys && records[key].status == ACTIVE ==> records[key] in active
        decreases keys
      {
        var key :| key in keys;
        if records[key].status == ACTIVE { active := active + [records[key]]; }
        keys := keys - {key};
      }
    }

    /** One pass of reconcile's first loop. */
    method ReconcileDetected(i: Insight, c: Context, b0: Buckets) returns (b: Buckets)
      requires OwnKeys(records)
      modifies this
      ensures OwnKeys(records)
      ensures Contents() == DetectOne(old(Contents()), i, c) && b == Sort(b0, old(Contents()), i, c)
    {
      b := b0;
      var existing := if i.key in records then Some(records[i.key]) else None;
      var (t, status) := ComputeTransition(if existing.Some? then Some(existing.value.status) else None, true);
      if t == ToIgnored {
        b := b.(ignored := b.ignored + [if existing.Some? then existing.value else i]);
        return;
      }
      if t == ToUnchanged && existing.Some? {
        b := b.(same := b.same + [existing.value]);
        return;
      }
      var saved := ApplyLifecycle(i, existing, t, status, c);
      Save(saved, KindOf(t), c);
      if t == ToCreated { b := b.(created := b.created + [saved]); }
      else if t == ToActivated { b := b.(activated := b.activated + [saved]); }
      else { b := b.(updated := b.updated + [saved]); }
    }

    /** One pass of reconcile's second loop over a record that no builder detected. */
    method ResolveActive(a: Insight, c: Context) returns (saved: Insight)
      requires OwnKeys(records)
      modifies this
      ensures OwnKeys(records)
      ensures Contents() == ResolveOne(old(Contents()), a, c) && a.key in records && saved == records[a.key]
    {
      var (t, status) := ComputeTransition(Some(ACTIVE), false);
      saved := ApplyLifecycle(a, Some(a), t, status, c);
      Save(saved, Resolved, c);
    }

    /** reconcile's second loop: `processed` holds the detected keys. */
    method ResolveUndetected(news: seq<Insight>, processed: set<string>, active: seq<Insight>, c: Context)
      returns (resolved: seq<Insight>)
      requires OwnKeys(records) && forall key :: key in processed <==> Mentions(news, key)
      modifies this
      ensures OwnKeys(records)
      ensures (Contents(), resolved) == Resolve(old(Contents()), news, active, c, |active|)
    {
      hide ResolveOne, Mentions;
      resolved := [];
      for n := 0 to |active|
        invariant OwnKeys(records)
        invariant (Contents(), resolved) == Resolve(old(Contents()), news, active, c, n)
      {
        if active[n].key !in processed {
          var saved := ResolveActive(active[n], c);
          resolved := resolved + [saved];
        }
      }
    }

    /** reconcile: `listed` is the order in which the repository listed the active records. */
    method Reconcile(news: seq<Insight>, c: Context) returns (b: Buckets, ghost listed: seq<Insight>)
      requires OwnKeys(records)
      modifies this
      ensures OwnKeys(records)
      ensures var (s1, found) := Detect(old(Contents()), news, c, |news|);
              && ListsActive(s1, listed)
              && var (s2, resolved) := Resolve(s1, news, listed, c, |listed|);
                 Contents() == s2 && b == found.(resolved := resolved)
    {
      hide Sort, DetectOne;
      b := NO_BUCKETS;
      var processed: set<string> := {};
      for n := 0 to |news|
        invariant OwnKeys(records)
        invariant forall key :: key in processed <==> exists i :: 0 <= i < n && news[i].key == key
        invariant (Contents(), b) == Detect(old(Contents()), news, c, n)
      {
        processed := processed + {news[n].key};
        b := ReconcileDetected(news[n], c, b);
      }
      var active := FindActive();
      listed := active;
      var resolved := ResolveUndetected(news, processed, active, c);
      b := b.(resolved := resolved);
    }

    method Archive(key: string, c: Context) returns (r: Result<Event, ArchiveError>)
      requires OwnKeys(records)
      modifies this
      ensures OwnKeys(records)
      ensures Contents() == DoArchive(old(Contents()), key, c)
      ensures r.Err? <==> key !in old(records) || old(records)[key].status == ARCHIVED
      ensures r.Ok? ==> timeline == old(timeline) + [r.value]
    {
      if key !in records { return Err(NotFound); }
      var insight := records[key];
      if insight.status == ARCHIVED { return Err(AlreadyArchived); }
      records := records[key := insight.(status := ARCHIVED)];
      var event := MakeEvent(key, Archived, insight.version, c);
      timeline := timeline + [event];
      r := Ok(event);
    }
  }
}
