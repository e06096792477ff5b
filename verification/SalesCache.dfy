/** The per-tab sales cache, validated by one revision that all tabs share. Times are milliseconds. */
module SalesCache {
  import opened Common

  const MAX_AGE := 60000

  /** What one tab keeps per period. */
  datatype Value = Value(at: int, revision: Option<int>, data: int)

  predicate Hit(cached: Value, revision: Option<int>, now: int) {
    cached.revision == revision && now - cached.at < MAX_AGE
  }

  class LocalStorage {
    var revision: Option<int>
  }

  /** fetchProductSales is split where it awaits: Lookup before the request, Store when it arrives.
      Each method is one step of the world below, as this tab sees it. */
  class Tab {
    const name: string
    const storage: LocalStorage
    var cache: map<string, Value>

    constructor (name: string, storage: LocalStorage, ghost w: World)
      requires storage.revision == w.revision && name !in w.caches
      ensures this.name == name && this.storage == storage && Shows(w)
    {
      this.name, this.storage, cache := name, storage, map[];
    }

    /** The tab holds what the world says it holds, under the revision all tabs share. */
    ghost predicate Shows(w: World)
      reads this, storage
    {
      && storage.revision == w.revision && cache.Keys == CacheOf(w, name).Keys
      && forall period :: period in cache ==> cache[period] == CacheOf(w, name)[period].value
    }

    /** Serves a value exactly when it is allowed to, over every run: cached, not forced, under a minute
        old, and no invalidation since its fetch began other than echoes of the one before. Otherwise the
        request now in flight carries the revision read here. */
    method Lookup(period: string, force: bool, now: int, ghost w: World, ghost flight: nat)
      returns (served: Option<Value>, revision: Option<int>)
      requires Shows(w) && Inv(w) && w.now == now && flight !in w.flights
      ensures revision == Next(w, Begin(name, period, flight)).flights[flight].revision
      ensures served.Some? <==>
                !force && period in CacheOf(w, name) && now - CacheOf(w, name)[period].value.at < 60000
                && OnlyEchoes(w, CacheOf(w, name)[period].born)
      ensures served.Some? ==> served.value == CacheOf(w, name)[period].value
    {
      revision := storage.revision;
      served := None;
      if !force && period in cache {
        HitIffEchoes(w, name, period);
        var cached := cache[period];
        if cached.revision == revision && now - cached.at < MAX_AGE { served := Some(cached); }
      }
    }

    /** The answer arrives; what other tabs hold is untouched. */
    method Store(period: string, revision: Option<int>, data: int, now: int, ghost w: World, ghost flight: nat)
      requires Shows(w) && w.now == now && flight in w.flights
      requires var f := w.flights[flight]; f.tab == name && f.period == period && f.revision == revision
      modifies this
      ensures Shows(Next(w, Arrive(flight, data)))
      ensures forall other :: other != name ==> CacheOf(Next(w, Arrive(flight, data)), other) == CacheOf(w, other)
    {
      cache := cache[period := Value(now, revision, data)];
    }

    /** After it, no value cached here survives, nor is one served anywhere that was fetched before,
        unless the revision it carries is the new one. */
    method Invalidate(now: int, ghost w: World)
      requires Shows(w) && w.now == now
      modifies this, storage
      ensures Shows(Next(w, Action.Invalidate(name)))
      ensures forall other :: other != name ==> CacheOf(Next(w, Action.Invalidate(name)), other) == CacheOf(w, other)
      ensures forall value: Value :: Hit(value, storage.revision, now) ==> value.revision == Some(now)
    {
      cache := map[];
      storage.revision := Some(now);
    }
  }

  // ------------------------------------------------------------ all tabs at once

  /** born is how many invalidations there had been when the value's fetch began; no code reads it. */
  datatype Entry = Entry(value: Value, born: nat)

  datatype Flight = Flight(tab: string, period: string, revision: Option<int>, born: nat)

  /** first is the revision found in localStorage at the start; invalidations lists the clock readings
      of every invalidation since, in any tab. */
  datatype World = World(
    now: int, first: Option<int>, revision: Option<int>, caches: map<string, map<string, Entry>>,
    flights: map<nat, Flight>, invalidations: seq<int>)

  datatype Action =
    | Wait(ms: nat)
    | Begin(tab: string, period: string, flight: nat)
    | Arrive(flight: nat, data: int)
    | Invalidate(tab: string)

  function CacheOf(w: World, tab: string): map<string, Entry> {
    if tab in w.caches then w.caches[tab] else map[]
  }

  function Next(w: World, a: Action): World {
    match a
    case Wait(ms) => w.(now := w.now + ms)
    case Begin(tab, period, flight) =>
      if flight in w.flights then w
      else w.(flights := w.flights[flight := Flight(tab, period, w.revision, |w.invalidations|)])
    case Arrive(flight, data) =>
      if flight !in w.flights then w
      else
        var f := w.flights[flight];
        var entry := Entry(Value(w.now, f.revision, data), f.born);
        w.(caches := w.caches[f.tab := CacheOf(w, f.tab)[f.period := entry]], flights := w.flights - {flight})
    case Invalidate(tab) =>
      w.(caches := w.caches[tab := map[]], revision := Some(w.now), invalidations := w.invalidations + [w.now])
  }

  function Run(w: World, actions: seq<Action>): World {
    if actions == [] then w else Next(Run(w, actions[..|actions| - 1]), actions[|actions| - 1])
  }

  /** Tabs open on whatever revision an earlier session left, which the clock has passed. */
  ghost predicate Initial(w: World) {
    && w.caches == map[] && w.flights == map[] && w.invalidations == []
    && w.revision == w.first && (w.first.Some? ==> w.first.value <= w.now)
  }

  /** The revision in force after the first k invalidations. */
  function RevisionAfter(w: World, k: nat): Option<int>
    requires k <= |w.invalidations|
  {
    if k == 0 then w.first else Some(w.invalidations[k - 1])
  }

  /** The clock and the shared revision. */
  ghost predicate Clocked(w: World) {
    && (forall i, j :: 0 <= i <= j < |w.invalidations| ==> w.invalidations[i] <= w.invalidations[j] <= w.now)
    && (w.first.Some? ==>
          w.first.value <= w.now && forall i :: 0 <= i < |w.invalidations| ==> w.first.value <= w.invalidations[i])
    && w.revision == RevisionAfter(w, |w.invalidations|)
  }

  ghost predicate Inv(w: World) {
    && Clocked(w)
    && (forall f :: f in w.flights ==> Born(w, w.flights[f].revision, w.flights[f].born))
    && (forall t, p :: t in w.caches && p in w.caches[t] ==>
          var e := w.caches[t][p]; Born(w, e.value.revision, e.born) && e.value.at <= w.now)
  }

  /** The revision in force when the value or the request was born. */
  predicate Born(w: World, revision: Option<int>, born: nat) {
    born <= |w.invalidations| && revision == RevisionAfter(w, born)
  }

  lemma BornStays(w: World, a: Action, revision: Option<int>, born: nat)
    requires Born(w, revision, born)
    ensures Born(Next(w, a), revision, born)
  {
  }

  lemma StepKeepsClock(w: World, a: Action)
    requires Clocked(w)
    ensures Clocked(Next(w, a)) && Next(w, a).now >= w.now
  {
  }

  lemma StepKeepsInv(w: World, a: Action)
    requires Inv(w)
    ensures Inv(Next(w, a))
  {
    var w' := Next(w, a);
    StepKeepsClock(w, a);
    forall f | f in w'.flights ensures Born(w', w'.flights[f].revision, w'.flights[f].born) {
      if f in w.flights && w'.flights[f] == w.flights[f] {
        BornStays(w, a, w.flights[f].revision, w.flights[f].born);
      }
    }
    forall t, p | t in w'.caches && p in w'.caches[t]
      ensures var e := w'.caches[t][p]; Born(w', e.value.revision, e.born) && e.value.at <= w'.now
    {
      var e := w'.caches[t][p];
      if t in w.caches && p in w.caches[t] && e == w.caches[t][p] {
        BornStays(w, a, e.value.revision, e.born);
      } else {
        assert a.Arrive?;
        BornStays(w, a, w.flights[a.flight].revision, w.flights[a.flight].born);
      }
    }
  }

  lemma {:induction false} RunKeepsInv(w: World, actions: seq<Action>)
    requires Inv(w)
    ensures Inv(Run(w, actions))
  {
    hide Inv, Next;
    if actions != [] {
      RunKeepsInv(w, actions[..|actions| - 1]);
      StepKeepsInv(Run(w, actions[..|actions| - 1]), actions[|actions| - 1]);
    }
  }

  /** Every invalidation since the value's fetch began left the revision that was there already. */
  ghost predicate OnlyEchoes(w: World, born: nat) {
    born <= |w.invalidations|
    && forall k :: born <= k < |w.invalidations| ==> Some(w.invalidations[k]) == RevisionAfter(w, born)
  }

  lemma HitIffEchoes(w: World, tab: string, period: string)
    requires Inv(w) && period in CacheOf(w, tab)
    ensures var e := CacheOf(w, tab)[period];
            Hit(e.value, w.revision, w.now) <==> w.now - e.value.at < 60000 && OnlyEchoes(w, e.born)
  {
    var e := CacheOf(w, tab)[period];
    var n := |w.invalidations|;
    if e.born < n {
      assert w.revision == Some(w.invalidations[n - 1]);
    }
  }

  /** Exactly when a cached value is served, over all runs of any number of tabs: it arrived less than a
      minute ago, and every invalidation since its fetch began repeated the millisecond of the revision
      that the fetch found. */
  lemma ServedIffEchoes(start: World, actions: seq<Action>, tab: string, period: string)
    requires Initial(start) && period in CacheOf(Run(start, actions), tab)
    ensures var w := Run(start, actions);
            var e := CacheOf(w, tab)[period];
            Hit(e.value, w.revision, w.now) <==> w.now - e.value.at < 60000 && OnlyEchoes(w, e.born)
  {
    RunKeepsInv(start, actions);
    HitIffEchoes(Run(start, actions), tab, period);
  }

  // --------------------------------------------------- where a value comes from

  predicate Lands(a: Action, flight: nat) {
    a.Arrive? && a.flight == flight
  }

  /** Request `flight` was begun by the i-th action, under the revision it then found. */
  ghost predicate BegunBy(start: World, actions: seq<Action>, i: nat, flight: nat, f: Flight)
    requires i < |actions|
  {
    actions[i] == Begin(f.tab, f.period, flight)
    && f.revision == Run(start, actions[..i]).revision && f.born == |Run(start, actions[..i]).invalidations|
  }

  /** It was begun, and has not been answered since. */
  ghost predicate Flying(start: World, actions: seq<Action>, flight: nat, f: Flight) {
    exists i :: 0 <= i < |actions| && BegunBy(start, actions, i, flight, f)
                && forall k :: i < k < |actions| ==> !Lands(actions[k], flight)
  }

  /** The i-th action began the request for this tab and period; the j-th, its first answer, brought the data
      at that moment; and the tab has not invalidated since. */
  ghost predicate FetchedBy(start: World, actions: seq<Action>, tab: string, period: string, e: Entry, i: nat, j: nat)
    requires i < j < |actions|
  {
    && actions[j].Arrive? && actions[j].data == e.value.data && e.value.at == Run(start, actions[..j]).now
    && BegunBy(start, actions, i, actions[j].flight, Flight(tab, period, e.value.revision, e.born))
    && (forall k :: i < k < j ==> !Lands(actions[k], actions[j].flight))
    && (forall k :: j < k < |actions| ==> actions[k] != Action.Invalidate(tab))
  }

  ghost predicate Fetched(start: World, actions: seq<Action>, tab: string, period: string, e: Entry) {
    exists i, j :: 0 <= i < j < |actions| && FetchedBy(start, actions, tab, period, e, i, j)
  }

  ghost predicate Sourced(start: World, actions: seq<Action>, w: World) {
    && (forall f :: f in w.flights ==> Flying(start, actions, f, w.flights[f]))
    && (forall t, p :: t in w.caches && p in w.caches[t] ==> Fetched(start, actions, t, p, w.caches[t][p]))
  }

  lemma Prefixes(actions: seq<Action>, a: Action)
    ensures forall i :: 0 <= i <= |actions| ==> (actions + [a])[..i] == actions[..i]
    ensures actions[..|actions|] == actions
  {
  }

  lemma StillFlying(start: World, actions: seq<Action>, a: Action, flight: nat, f: Flight)
    requires Flying(start, actions, flight, f) && !Lands(a, flight)
    ensures Flying(start, actions + [a], flight, f)
  {
    hide Run;
    var more := actions + [a];
    var i :| 0 <= i < |actions| && BegunBy(start, actions, i, flight, f)
             && forall k :: i < k < |actions| ==> !Lands(actions[k], flight);
    Prefixes(actions, a);
    assert BegunBy(start, more, i, flight, f);
  }

  lemma TakesOff(start: World, actions: seq<Action>, flight: nat, f: Flight)
    requires f.revision == Run(start, actions).revision && f.born == |Run(start, actions).invalidations|
    ensures Flying(start, actions + [Begin(f.tab, f.period, flight)], flight, f)
  {
    hide Run;
    Prefixes(actions, Begin(f.tab, f.period, flight));
    assert BegunBy(start, actions + [Begin(f.tab, f.period, flight)], |actions|, flight, f);
  }

  lemma StillFetched(start: World, actions: seq<Action>, a: Action, tab: string, period: string, e: Entry)
    requires Fetched(start, actions, tab, period, e) && a != Action.Invalidate(tab)
    ensures Fetched(start, actions + [a], tab, period, e)
  {
    hide Run;
    var i, j :| 0 <= i < j < |actions| && FetchedBy(start, actions, tab, period, e, i, j);
    Prefixes(actions, a);
    assert FetchedBy(start, actions + [a], tab, period, e, i, j);
  }

  lemma Touchdown(start: World, actions: seq<Action>, flight: nat, f: Flight, data: int)
    requires Flying(start, actions, flight, f)
    ensures Fetched(start, actions + [Arrive(flight, data)], f.tab, f.period,
                    Entry(Value(Run(start, actions).now, f.revision, data), f.born))
  {
    hide Run;
    var more := actions + [Arrive(flight, data)];
    var i :| 0 <= i < |actions| && BegunBy(start, actions, i, flight, f)
             && forall k :: i < k < |actions| ==> !Lands(actions[k], flight);
    Prefixes(actions, Arrive(flight, data));
    assert FetchedBy(start, more, f.tab, f.period, Entry(Value(Run(start, actions).now, f.revision, data), f.born),
                     i, |actions|);
  }

  lemma StepKeepsSources(start: World, actions: seq<Action>, a: Action)
    requires Sourced(start, actions, Run(start, actions))
    ensures Sourced(start, actions + [a], Next(Run(start, actions), a))
  {
    hide Run, Flying, Fetched;
    var w := Run(start, actions);
    var w', more := Next(w, a), actions + [a];
    forall f | f in w'.flights ensures Flying(start, more, f, w'.flights[f]) {
      if f in w.flights { StillFlying(start, actions, a, f, w.flights[f]); } else { TakesOff(start, actions, f, w'.flights[f]); }
    }
    forall t, p | t in w'.caches && p in w'.caches[t] ensures Fetched(start, more, t, p, w'.caches[t][p]) {
      if a.Arrive? && a.flight in w.flights && w.flights[a.flight].tab == t && w.flights[a.flight].period == p {
        Touchdown(start, actions, a.flight, w.flights[a.flight], a.data);
      } else {
        StillFetched(start, actions, a, t, p, w.caches[t][p]);
      }
    }
  }

  /** Over every run, whatever a tab holds for a period is what a request of that tab for that period was
      answered, at the moment and under the revision it says, and the tab has not invalidated since. */
  lemma {:induction false} HeldIsWhatWasAnswered(start: World, actions: seq<Action>)
    requires Initial(start)
    ensures Sourced(start, actions, Run(start, actions))
  {
    hide Next, Flying, Fetched;
    if actions != [] {
      var before, a := actions[..|actions| - 1], actions[|actions| - 1];
      HeldIsWhatWasAnswered(start, before);
      StepKeepsSources(start, before, a);
      assert before + [a] == actions;
    }
  }

  ghost predicate FreshRevisions(w: World) {
    && (forall i, j :: 0 <= i < j < |w.invalidations| ==> w.invalidations[i] < w.invalidations[j])
    && forall i :: 0 <= i < |w.invalidations| ==> w.first != Some(w.invalidations[i])
  }

  /** With a fresh revision per invalidation, nothing fetched before an invalidation is ever served after it. */
  lemma ServedIsCurrent(start: World, actions: seq<Action>, tab: string, period: string)
    requires Initial(start)
    requires var w := Run(start, actions);
             period in CacheOf(w, tab) && FreshRevisions(w) && Hit(CacheOf(w, tab)[period].value, w.revision, w.now)
    ensures var w := Run(start, actions);
            var e := CacheOf(w, tab)[period];
            e.born == |w.invalidations| && 0 <= w.now - e.value.at < 60000
  {
    RunKeepsInv(start, actions);
    HitIffEchoes(Run(start, actions), tab, period);
  }

  /** The clock is not fresh enough by itself: two invalidations in one millisecond share a revision,
      and a value fetched between them is served after the second. */
  lemma SameMillisecondServesStale(start: World, a: string, b: string, period: string, data: int)
    requires Initial(start) && a != b
    ensures var w := Run(start, [Invalidate(b), Begin(a, period, 0), Invalidate(b), Arrive(0, data)]);
            period in CacheOf(w, a) && Hit(CacheOf(w, a)[period].value, w.revision, w.now)
            && CacheOf(w, a)[period].born < |w.invalidations|
  {
    var a1, a2, a3, a4 := Invalidate(b), Begin(a, period, 0), Invalidate(b), Arrive(0, data);
    var w1 := Next(start, a1);
    var w2 := Next(w1, a2);
    var w3 := Next(w2, a3);
    var w4 := Next(w3, a4);
    assert w2.flights[0] == Flight(a, period, Some(start.now), 1);
    assert CacheOf(w4, a)[period] == Entry(Value(start.now, Some(start.now), data), 1);
    FourSteps(start, a1, a2, a3, a4);
  }

  lemma FourSteps(w: World, a1: Action, a2: Action, a3: Action, a4: Action)
    ensures Run(w, [a1, a2, a3, a4]) == Next(Next(Next(Next(w, a1), a2), a3), a4)
  {
    hide Next;
    var s := [a1, a2, a3, a4];
    assert s[..3] == [a1, a2, a3] && s[..3][..2] == [a1, a2] && s[..3][..2][..1] == [a1] && s[..3][..2][..1][..0] == [];
    assert Run(w, [a1]) == Next(w, a1);
    assert Run(w, [a1, a2]) == Next(Next(w, a1), a2);
    assert Run(w, [a1, a2, a3]) == Next(Next(Next(w, a1), a2), a3);
  }
}
