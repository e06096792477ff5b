/** The remote API client: throttling, bounded retries and pagination. Times are integer clock ticks. */
module ApiClient {
  import opened Common

  /** What the remote answers to the n-th GET for a page: a status, or 0 for a transport error. */
  type Answers = (nat, nat) -> nat

  datatype ApiError = Transport | BadStatus(status: nat)

  /** A list cut into pages of `limit`, numbered from 1; pages past the end are empty. */
  function Slice<T>(items: seq<T>, from: nat, to: nat): seq<T> {
    items[(if from < |items| then from else |items|)..][..
      if to <= from || from >= |items| then 0 else if to < |items| then to - from else |items| - from]
  }

  function PageOf<T>(items: seq<T>, limit: nat, page: nat): seq<T>
    requires page >= 1
  {
    Slice(items, (page - 1) * limit, page * limit)
  }

  function Prefix<T>(items: seq<T>, n: nat): seq<T> {
    if n < |items| then items[..n] else items
  }

  lemma PrefixGrows<T>(items: seq<T>, limit: nat, page: nat)
    requires page >= 1 && limit >= 1
    ensures Prefix(items, (page - 1) * limit) + PageOf(items, limit, page) == Prefix(items, page * limit)
    ensures |PageOf(items, limit, page)| == limit <==> page * limit <= |items|
  {
    assert page * limit == (page - 1) * limit + limit;
  }

  ghost predicate Spaced(sent: seq<int>, interval: int) {
    forall i :: 0 <= i < |sent| - 1 ==> sent[i + 1] - sent[i] >= interval
  }

  /** Any run of n requests spans at least n - 1 intervals. */
  lemma {:induction false} RequestsSpan(sent: seq<int>, interval: int, i: nat, j: nat)
    requires Spaced(sent, interval) && i <= j < |sent|
    ensures sent[j] - sent[i] >= (j - i) * interval
  {
    if i < j {
      RequestsSpan(sent, interval, i, j - 1);
      assert sent[j - 1 + 1] - sent[j - 1] >= interval;
      assert (j - i) * interval == (j - 1 - i) * interval + interval;
    }
  }

  /** What get_authenticated does with the answers to one page, as a function of the counters. */
  function Outcome(answers: Answers, page: nat, maxRetries: int, gets: nat, transient: nat, refreshed: bool): (r: (nat, nat))
    decreases maxRetries - transient, if refreshed then 0 else 1
    ensures r.0 <= gets + 1 + (if transient < maxRetries then maxRetries - transient else 0) + (if refreshed then 0 else 1)
    ensures r.0 > gets && r.1 == answers(page, r.0 - 1)
  {
    var status := answers(page, gets);
    if status == 401 && !refreshed then Outcome(answers, page, maxRetries, gets + 1, transient, true)
    else if (status == 429 || status >= 500) && transient < maxRetries then
      Outcome(answers, page, maxRetries, gets + 1, transient + 1, refreshed)
    else (gets + 1, status)
  }

  predicate IsTransient(status: nat) {
    status == 429 || status >= 500
  }

  /** How many of the answers from..to to a page satisfy a test. */
  function CountAnswers(answers: Answers, page: nat, from: nat, to: nat, transient: bool): nat
    decreases to - from
  {
    if from >= to then 0
    else (if (if transient then IsTransient(answers(page, from)) else answers(page, from) == 401) then 1 else 0)
         + CountAnswers(answers, page, from + 1, to, transient)
  }

  /** Nothing but a 401, a 429 or a 5xx is asked again, a 401 at most once and the rest at most
      maxRetries times; and a call gives up on one of those only when its budget is spent. */
  lemma {:induction false} GivesUpOnlyWhenSpent(answers: Answers, page: nat, maxRetries: int, gets: nat,
                                                transient: nat, refreshed: bool)
    ensures var (n, status) := Outcome(answers, page, maxRetries, gets, transient, refreshed);
            var spent := CountAnswers(answers, page, gets, n - 1, true);
            var refreshes := CountAnswers(answers, page, gets, n - 1, false);
            && spent + refreshes == n - 1 - gets
            && transient + spent <= (if maxRetries > transient then maxRetries else transient)
            && refreshes <= (if refreshed then 0 else 1)
            && (status == 401 ==> refreshed || refreshes == 1)
            && (IsTransient(status) ==> transient + spent >= maxRetries)
    decreases maxRetries - transient, if refreshed then 0 else 1
  {
    var status := answers(page, gets);
    if status == 401 && !refreshed {
      GivesUpOnlyWhenSpent(answers, page, maxRetries, gets + 1, transient, true);
    } else if IsTransient(status) && transient < maxRetries {
      GivesUpOnlyWhenSpent(answers, page, maxRetries, gets + 1, transient + 1, refreshed);
    }
  }

  /** The pages a complete listing reads: up to the first short one, but no more than asked for. */
  function PagesNeeded(items: nat, limit: nat, maxPages: Option<int>): (n: nat)
    requires limit >= 1
    ensures n >= 1
  {
    var all := items / limit + 1;
    if maxPages.Some? && maxPages.value < all then (if maxPages.value > 1 then maxPages.value else 1) else all
  }

  lemma FullPages(items: nat, limit: nat, page: nat)
    requires limit >= 1
    ensures page * limit <= items <==> page <= items / limit
  {
    var q, r := items / limit, items % limit;
    assert items == q * limit + r;
    if page <= q {
      assert q * limit == page * limit + (q - page) * limit;
    } else {
      assert page * limit == (q + 1) * limit + (page - q - 1) * limit;
      assert (q + 1) * limit == q * limit + limit;
    }
  }

  /** The loop stops exactly after the last page it needs. */
  lemma LastPage(items: nat, limit: nat, maxPages: Option<int>, page: nat)
    requires limit >= 1 && 1 <= page <= PagesNeeded(items, limit, maxPages)
    ensures (page * limit <= items && !(maxPages.Some? && page >= maxPages.value)) <==> page < PagesNeeded(items, limit, maxPages)
  {
    FullPages(items, limit, page);
    FullPages(items, limit, page - 1);
  }

  class BlingApiClient {
    const interval: nat
    const maxRetries: int
    var clock: int
    var lastRequestAt: int
    var sent: seq<int>

    constructor (interval: nat, maxRetries: int)
      ensures Valid() && sent == [] && this.interval == interval && this.maxRetries == maxRetries
    {
      this.interval, this.maxRetries := interval, maxRetries;
      clock, lastRequestAt, sent := 0, 0, [];
    }

    ghost predicate Valid()
      reads this
    {
      lastRequestAt <= clock && Spaced(sent, interval) && (sent != [] ==> lastRequestAt == sent[|sent| - 1])
    }

    /** _throttle, then the request goes out. Sleeping may take longer than asked, never less. */
    method ThrottledGet()
      requires Valid()
      modifies this
      ensures Valid() && |sent| == |old(sent)| + 1 && sent[..|old(sent)|] == old(sent)
    {
      var idle: nat, oversleep: nat := *, *;
      clock := clock + idle;
      var wait := lastRequestAt + interval - clock;
      if wait > 0 { clock := clock + wait + oversleep; }
      lastRequestAt := clock;
      sent := sent + [clock];
    }

    method GetAuthenticated(page: nat, answers: Answers) returns (r: Result<nat, ApiError>)
      requires Valid()
      modifies this
      ensures Valid()
      ensures var (gets, status) := Outcome(answers, page, maxRetries, 0, 0, false);
              && |sent| == |old(sent)| + gets
              && r == if status == 0 then Err(Transport) else Ok(status)
    {
      var transient, refreshed, gets := 0, false, 0;
      while true
        invariant Valid() && |sent| == |old(sent)| + gets
        invariant Outcome(answers, page, maxRetries, 0, 0, false)
               == Outcome(answers, page, maxRetries, gets, transient, refreshed)
        decreases maxRetries - transient, if refreshed then 0 else 1
      {
        ThrottledGet();
        var status := answers(page, gets);
        gets := gets + 1;
        if status == 0 { return Err(Transport); }
        if status == 401 && !refreshed {
          refreshed := true;
        } else if status == 429 && transient < maxRetries {
          transient := transient + 1;
        } else if status >= 500 && transient < maxRetries {
          transient := transient + 1;
        } else {
          return Ok(status);
        }
      }
    }

    /** list_resource over a remote that serves `items` cut into pages of `limit`. */
    method ListResource<T>(items: seq<T>, limit: nat, maxPages: Option<int>, answers: Answers)
      returns (r: Result<seq<T>, ApiError>, pages: nat)
      requires Valid() && limit >= 1
      modifies this
      ensures Valid()
      ensures r.Ok? ==> r.value == if maxPages.None? then items
                                   else Prefix(items, (if maxPages.value > 1 then maxPages.value else 1) * limit)
      ensures 1 <= pages <= PagesNeeded(|items|, limit, maxPages)
      ensures r.Ok? ==> pages == PagesNeeded(|items|, limit, maxPages)
      ensures r.Err? <==> exists p :: 1 <= p <= PagesNeeded(|items|, limit, maxPages)
                                      && Outcome(answers, p, maxRetries, 0, 0, false).1 != 200
      ensures forall p :: 1 <= p < pages ==> Outcome(answers, p, maxRetries, 0, 0, false).1 == 200
      ensures r.Err? ==> var status := Outcome(answers, pages, maxRetries, 0, 0, false).1;
                         status != 200 && r.error == if status == 0 then Transport else BadStatus(status)
      ensures |sent| <= |old(sent)| + pages * ((if maxRetries > 0 then maxRetries else 0) + 2)
    {
      hide PagesNeeded, Outcome;
      var found: seq<T> := [];
      var page := 1;
      ghost var bound := (if maxRetries > 0 then maxRetries else 0) + 2;
      while true
        invariant Valid() && page >= 1
        invariant found == Prefix(items, (page - 1) * limit) && (page - 1) * limit <= |items|
        invariant maxPages.Some? && page > 1 ==> page <= maxPages.value
        invariant page <= PagesNeeded(|items|, limit, maxPages)
        invariant forall p :: 1 <= p < page ==> Outcome(answers, p, maxRetries, 0, 0, false).1 == 200
        invariant |sent| <= |old(sent)| + (page - 1) * bound
        decreases |items| + limit - (page - 1) * limit
      {
        var response := GetAuthenticated(page, answers);
        assert page * bound == (page - 1) * bound + bound;
        if response.Err? { return Err(response.error), page; }
        if response.value != 200 { return Err(BadStatus(response.value)), page; }
        var data := PageOf(items, limit, page);
        PrefixGrows(items, limit, page);
        LastPage(|items|, limit, maxPages, page);
        assert page * limit == (page - 1) * limit + limit;
        found := found + data;
        if maxPages.Some? && page >= maxPages.value { break; }
        if |data| == 0 { break; }
        if |data| != limit { break; }
        page := page + 1;
      }
      PrefixGrows(items, limit, page);
      if maxPages.Some? { BeyondTheEnd(items, limit, page, if maxPages.value > 1 then maxPages.value else 1); }
      r, pages := Ok(found), page;
    }
  }

  lemma BeyondTheEnd<T>(items: seq<T>, limit: nat, page: nat, last: nat)
    requires page <= last
    ensures page * limit >= |items| ==> Prefix(items, last * limit) == items && Prefix(items, page * limit) == items
  {
    assert last * limit == page * limit + (last - page) * limit;
  }
}
