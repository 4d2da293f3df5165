/**
  The fixed-window rate limiter: the in-memory Redis counter with its two-step
  increment and expiry (app/core/redis.py), the locked fallback counter
  (app/core/rate_limit.py), and what they admit.
*/
module RateLimit {
  import opened Common

  // -------------------------------------------------- one key, step by step

  /** A stored counter; the expiry is unset until the expire step has run. */
  datatype Entry = Entry(count: nat, expiresAt: Option<int>)

  function Live(e: Option<Entry>, now: int): Option<Entry> {
    if e.Some? && e.value.expiresAt.Some? && now >= e.value.expiresAt.value then None else e
  }

  function Incremented(e: Option<Entry>, now: int): Entry {
    var live := Live(e, now);
    if live.None? then Entry(1, None) else Entry(live.value.count + 1, live.value.expiresAt)
  }

  function Expired(e: Option<Entry>, window: int, now: int): Option<Entry> {
    var live := Live(e, now);
    if live.None? then None else Some(live.value.(expiresAt := Some(now + window)))
  }

  /** A request is one increment and, when it finds itself first, a later expire step. */
  datatype Step = Increment(at: int) | Expire(at: int)

  /** pending counts the requests that were first and have not run their expire step yet. */
  datatype State = State(entry: Option<Entry>, pending: nat)

  const START := State(None, 0)

  predicate Enabled(s: State, step: Step) {
    step.Expire? ==> s.pending > 0
  }

  function Next(window: int, s: State, step: Step): State
    requires Enabled(s, step)
  {
    match step
    case Increment(at) =>
      var e := Incremented(s.entry, at);
      State(Some(e), if e.count == 1 then s.pending + 1 else s.pending)
    case Expire(at) =>
      State(Expired(s.entry, window, at), s.pending - 1)
  }

  ghost predicate ValidRun(window: int, s: State, steps: seq<Step>)
    decreases |steps|
  {
    steps == [] || (Enabled(s, steps[0]) && ValidRun(window, Next(window, s, steps[0]), steps[1..]))
  }

  function Run(window: int, s: State, steps: seq<Step>): State
    requires ValidRun(window, s, steps)
    decreases |steps|
  {
    if steps == [] then s else Run(window, Next(window, s, steps[0]), steps[1..])
  }

  /** One increment as seen from outside: when it happened and the count it was given. */
  datatype Hit = Hit(at: int, count: nat)

  function Hits(window: int, s: State, steps: seq<Step>): (hits: seq<Hit>)
    requires ValidRun(window, s, steps)
    ensures |hits| <= |steps|
    decreases |steps|
  {
    if steps == [] then []
    else
      (if steps[0].Increment? then [Hit(steps[0].at, Incremented(s.entry, steps[0].at).count)] else [])
      + Hits(window, Next(window, s, steps[0]), steps[1..])
  }

  ghost predicate ClockRuns(steps: seq<Step>, from: int) {
    (forall i :: 0 <= i < |steps| ==> from <= steps[i].at)
    && (forall i, j :: 0 <= i < j < |steps| ==> steps[i].at <= steps[j].at)
  }

  /** A counter waits for exactly one expire step while it has no expiry, and for none afterwards. */
  ghost predicate OnePendingExpire(s: State) {
    s.pending == (if s.entry.Some? && s.entry.value.expiresAt.None? then 1 else 0)
    && (s.entry.Some? ==> s.entry.value.count >= 1)
  }

  lemma {:induction false} EveryCounterWillExpire(window: int, s: State, steps: seq<Step>)
    requires OnePendingExpire(s) && ValidRun(window, s, steps)
    ensures OnePendingExpire(Run(window, s, steps))
    decreases |steps|
  {
    if steps != [] {
      EveryCounterWillExpire(window, Next(window, s, steps[0]), steps[1..]);
    }
  }

  // ----------------------------------------------------------- what is admitted

  function Admitted(limit: int, hits: seq<Hit>): nat {
    if hits == [] then 0 else (if hits[0].count <= limit then 1 else 0) + Admitted(limit, hits[1..])
  }

  /**
    Counts continue from count by ones, except where a hit opens a new window: not
    before opens, and then not within a window length nor at the instant of another hit.
  */
  ghost predicate Windowed(window: int, hits: seq<Hit>, count: nat, opens: int)
    decreases |hits|
  {
    hits == []
    || (hits[0].count == 1 && opens <= hits[0].at && Windowed(window, hits[1..], 1, hits[0].at + window))
    || (hits[0].count == count + 1 >= 2 && Windowed(window, hits[1..], count + 1, Max(opens, hits[0].at + 1)))
  }

  lemma {:induction false} WindowedWeakens(window: int, hits: seq<Hit>, count: nat, opens: int, earlier: int)
    requires Windowed(window, hits, count, opens) && earlier <= opens
    ensures Windowed(window, hits, count, earlier)
    decreases |hits|
  {
    if hits != [] && !(hits[0].count == 1 && opens <= hits[0].at && Windowed(window, hits[1..], 1, hits[0].at + window)) {
      WindowedWeakens(window, hits[1..], count + 1, Max(opens, hits[0].at + 1), Max(earlier, hits[0].at + 1));
    }
  }

  function CountOf(e: Option<Entry>): nat { if e.Some? then e.value.count else 0 }

  /** The earliest instant at which a new window can open. */
  function NextOpening(window: int, s: State, now: int): int {
    if s.entry.None? then now
    else if s.entry.value.expiresAt.None? then now + window
    else Max(now, s.entry.value.expiresAt.value)
  }

  lemma WindowedCons(window: int, hit: Hit, tail: seq<Hit>, count: nat, opens: int)
    requires (hit.count == 1 && opens <= hit.at && Windowed(window, tail, 1, hit.at + window))
             || (hit.count == count + 1 >= 2 && Windowed(window, tail, count + 1, Max(opens, hit.at + 1)))
    ensures Windowed(window, [hit] + tail, count, opens)
  {
    assert ([hit] + tail)[1..] == tail;
  }

  /** A step in front of a windowed list of hits. */
  lemma StepIsWindowed(window: int, s: State, step: Step, now: int, tail: seq<Hit>)
    requires window > 0 && OnePendingExpire(s) && Enabled(s, step) && now <= step.at
    requires var s' := Next(window, s, step); Windowed(window, tail, CountOf(s'.entry), NextOpening(window, s', step.at))
    ensures var all := if step.Increment? then [Hit(step.at, Incremented(s.entry, step.at).count)] + tail else tail;
            Windowed(window, all, CountOf(s.entry), NextOpening(window, s, now))
  {
    hide Windowed;
    var s' := Next(window, s, step);
    if step.Increment? {
      var hit := Hit(step.at, Incremented(s.entry, step.at).count);
      if hit.count != 1 {
        WindowedWeakens(window, tail, hit.count, NextOpening(window, s', step.at),
                        Max(NextOpening(window, s, now), step.at + 1));
      }
      WindowedCons(window, hit, tail, CountOf(s.entry), NextOpening(window, s, now));
    } else {
      WindowedWeakens(window, tail, CountOf(s'.entry), NextOpening(window, s', step.at), NextOpening(window, s, now));
    }
  }

  lemma {:induction false} HitsAreWindowed(window: int, s: State, steps: seq<Step>, now: int)
    requires window > 0 && OnePendingExpire(s) && ValidRun(window, s, steps) && ClockRuns(steps, now)
    ensures Windowed(window, Hits(window, s, steps), CountOf(s.entry), NextOpening(window, s, now))
    decreases |steps|
  {
    if steps != [] {
      var step, s' := steps[0], Next(window, s, steps[0]);
      assert ClockRuns(steps[1..], step.at) && now <= step.at;
      assert OnePendingExpire(s');
      hide Windowed, ClockRuns, NextOpening, OnePendingExpire, Next, Incremented;
      HitsAreWindowed(window, s', steps[1..], step.at);
      var tail := Hits(window, s', steps[1..]);
      assert [] + tail == tail;
      StepIsWindowed(window, s, step, now, tail);
    }
  }

  ghost predicate NotAfter(hits: seq<Hit>, last: int) {
    forall i :: 0 <= i < |hits| ==> hits[i].at <= last
  }

  /** While no new window can open, at most what is left of the limit is admitted. */
  lemma {:induction false} RestOfWindow(window: int, limit: nat, hits: seq<Hit>, count: nat, opens: int, last: int)
    requires Windowed(window, hits, count, opens) && NotAfter(hits, last) && last < opens
    ensures Admitted(limit, hits) <= Max(0, limit - count)
    decreases |hits|
  {
    if hits != [] {
      RestOfWindow(window, limit, hits[1..], count + 1, Max(opens, hits[0].at + 1), last);
    }
  }

  /** While at most one new window can open, at most one more limit is admitted. */
  lemma {:induction false} RestOfTwoWindows(window: int, limit: nat, hits: seq<Hit>, count: nat, opens: int, last: int)
    requires Windowed(window, hits, count, opens) && NotAfter(hits, last) && last < opens + window
    ensures Admitted(limit, hits) <= Max(0, limit - count) + limit
    decreases |hits|
  {
    if hits != [] {
      if hits[0].count == 1 && opens <= hits[0].at && Windowed(window, hits[1..], 1, hits[0].at + window) {
        RestOfWindow(window, limit, hits[1..], 1, hits[0].at + window, last);
      } else {
        RestOfTwoWindows(window, limit, hits[1..], count + 1, Max(opens, hits[0].at + 1), last);
      }
    }
  }

  /** What follows a hit is windowed again, and opens nothing at the hit's own instant. */
  lemma {:induction false} AfterHit(window: int, hits: seq<Hit>, count: nat, opens: int, i: nat, j: nat) returns (next: int)
    requires window > 0 && Windowed(window, hits, count, opens) && i < j <= |hits|
    ensures hits[i].count >= 1 && hits[i].at < next && Windowed(window, hits[i + 1..j], hits[i].count, next)
    decreases i
  {
    var first := hits[0].count == 1 && opens <= hits[0].at && Windowed(window, hits[1..], 1, hits[0].at + window);
    next := if first then hits[0].at + window else Max(opens, hits[0].at + 1);
    if i == 0 {
      PrefixIsWindowed(window, hits[1..], hits[0].count, next, j - 1);
      assert hits[1..j] == hits[1..][..j - 1];
    } else {
      assert hits[1..][i - 1] == hits[i] && hits[1..][i..j - 1] == hits[i + 1..j];
      next := AfterHit(window, hits[1..], hits[0].count, next, i - 1, j - 1);
    }
  }

  lemma {:induction false} PrefixIsWindowed(window: int, hits: seq<Hit>, count: nat, opens: int, n: nat)
    requires Windowed(window, hits, count, opens) && n <= |hits|
    ensures Windowed(window, hits[..n], count, opens)
    decreases n
  {
    if n > 0 {
      assert hits[..n][1..] == hits[1..][..n - 1];
      if hits[0].count == 1 && opens <= hits[0].at && Windowed(window, hits[1..], 1, hits[0].at + window) {
        PrefixIsWindowed(window, hits[1..], 1, hits[0].at + window, n - 1);
      } else {
        PrefixIsWindowed(window, hits[1..], count + 1, Max(opens, hits[0].at + 1), n - 1);
      }
    }
  }

  /**
    Any closed span of one window length admits at most twice the limit, whatever
    the interleaving of the two steps of the requests.
  */
  lemma SpanAdmitsAtMostTwiceTheLimit(window: int, limit: nat, steps: seq<Step>, now: int, i: nat, j: nat)
    requires window > 0 && ValidRun(window, START, steps) && ClockRuns(steps, now)
    requires i < j <= |Hits(window, START, steps)|
    requires NotAfter(Hits(window, START, steps)[i..j], Hits(window, START, steps)[i].at + window)
    ensures Admitted(limit, Hits(window, START, steps)[i..j]) <= 2 * limit
  {
    HitsAreWindowed(window, START, steps, now);
    var hits := Hits(window, START, steps);
    var next := AfterHit(window, hits, 0, NextOpening(window, START, now), i, j);
    var span, rest := hits[i..j], hits[i + 1..j];
    assert span[0] == hits[i] && span[1..] == rest;
    assert forall m :: 0 <= m < |rest| ==> rest[m] == span[m + 1];
    RestOfTwoWindows(window, limit, rest, hits[i].count, next, hits[i].at + window);
  }

  function Min(a: int, b: int): int { if a < b then a else b }

  /** Without an opening, exactly the hits up to the limit are admitted. */
  lemma {:induction false} RestWithoutOpening(window: int, limit: nat, hits: seq<Hit>, count: nat, opens: int)
    requires Windowed(window, hits, count, opens) && forall m :: 0 <= m < |hits| ==> hits[m].count != 1
    ensures Admitted(limit, hits) == Min(|hits|, Max(0, limit - count))
    decreases |hits|
  {
    if hits != [] {
      RestWithoutOpening(window, limit, hits[1..], count + 1, Max(opens, hits[0].at + 1));
    }
  }

  /**
    In every run, whatever the interleaving, a stretch of hits in which no window opens after the first hit admits at
    most the limit; a whole window, from its first hit on, admits exactly its first hits up to the limit.
  */
  lemma WindowAdmitsItsFirstHits(window: int, limit: nat, steps: seq<Step>, now: int, i: nat, j: nat)
    requires window > 0 && ValidRun(window, START, steps) && ClockRuns(steps, now)
    requires i < j <= |Hits(window, START, steps)|
    requires forall m :: i < m < j ==> Hits(window, START, steps)[m].count != 1
    ensures Admitted(limit, Hits(window, START, steps)[i..j]) <= limit
    ensures Hits(window, START, steps)[i].count == 1 ==>
              Admitted(limit, Hits(window, START, steps)[i..j]) == Min(limit, j - i)
  {
    HitsAreWindowed(window, START, steps, now);
    var hits := Hits(window, START, steps);
    var next := AfterHit(window, hits, 0, NextOpening(window, START, now), i, j);
    var span, rest := hits[i..j], hits[i + 1..j];
    assert span[0] == hits[i] && span[1..] == rest;
    assert forall m :: 0 <= m < |rest| ==> rest[m] == hits[i + 1 + m];
    RestWithoutOpening(window, limit, rest, hits[i].count, next);
  }

  /** A counter whose expire step never runs never reopens: all its later hits share what is left of one limit. */
  lemma {:induction false} LostExpireNeverReopens(window: int, limit: nat, s: State, steps: seq<Step>)
    requires s.entry.Some? && s.entry.value.expiresAt.None? && s.entry.value.count >= 1
    requires ValidRun(window, s, steps) && forall i :: 0 <= i < |steps| ==> steps[i].Increment?
    ensures Admitted(limit, Hits(window, s, steps)) <= Max(0, limit - s.entry.value.count)
    decreases |steps|
  {
    if steps != [] {
      LostExpireNeverReopens(window, limit, Next(window, s, steps[0]), steps[1..]);
      var tail := Hits(window, Next(window, s, steps[0]), steps[1..]);
      assert Hits(window, s, steps)[1..] == tail;
    }
  }

  // ------------------------------------------------------------ the two stores

  function Lookup<T>(store: map<string, T>, key: string): Option<T> {
    if key in store then Some(store[key]) else None
  }

  class InMemoryRedis {
    var store: map<string, Entry>

    constructor ()
      ensures store == map[]
    {
      store := map[];
    }

    method DeleteIfExpired(key: string, now: int)
      modifies this
      ensures Lookup(store, key) == Live(Lookup(old(store), key), now)
      ensures store - {key} == old(store) - {key}
    {
      if key in store && store[key].expiresAt.Some? && now >= store[key].expiresAt.value {
        store := store - {key};
      }
    }

    method Incr(key: string, now: int) returns (value: nat)
      modifies this
      ensures store == old(store)[key := Incremented(Lookup(old(store), key), now)]
      ensures value == store[key].count
    {
      DeleteIfExpired(key, now);
      ghost var others := store - {key};
      var entry := if key in store then store[key] else Entry(0, None);
      value := entry.count + 1;
      store := store[key := Entry(value, entry.expiresAt)];
      assert store - {key} == others;
      SameOutsideKey(store, old(store), key);
    }

    method Expire(key: string, seconds: int, now: int) returns (found: bool)
      modifies this
      ensures found == Live(Lookup(old(store), key), now).Some?
      ensures Lookup(store, key) == Expired(Lookup(old(store), key), seconds, now)
      ensures store - {key} == old(store) - {key}
    {
      DeleteIfExpired(key, now);
      if key !in store {
        return false;
      }
      store := store[key := store[key].(expiresAt := Some(now + seconds))];
      return true;
    }
  }

  lemma SameOutsideKey<T>(a: map<string, T>, b: map<string, T>, key: string)
    requires key in a && a - {key} == b - {key}
    ensures a == b[key := a[key]]
  {
    forall k | k != key
      ensures (k in a <==> k in b) && (k in a ==> a[k] == b[k])
    {
      assert k in a <==> k in a - {key};
      assert k in b <==> k in b - {key};
      if k in a {
        assert (a - {key})[k] == a[k] && (b - {key})[k] == b[k];
      }
    }
  }

  // -------------------------------------------------------- the two decisions

  datatype Request = Request(key: string, limit: int, window: int, now: int)
  datatype Bucket = Bucket(count: nat, expiresAt: int)

  /** A request served by the counter store, its two steps at one instant. */
  function AllowRequest(store: map<string, Entry>, r: Request): (bool, map<string, Entry>) {
    var e := Incremented(Lookup(store, r.key), r.now);
    (e.count <= r.limit,
     store[r.key := if e.count == 1 then e.(expiresAt := Some(r.now + r.window)) else e])
  }

  /** A request served by the fallback store under its lock. */
  function AllowFallback(store: map<string, Bucket>, r: Request): (bool, map<string, Bucket>) {
    var found := Lookup(store, r.key);
    var b := if found.None? then Bucket(0, r.now + r.window) else found.value;
    var b' := if r.now >= b.expiresAt then Bucket(1, r.now + r.window) else b.(count := b.count + 1);
    (b'.count <= r.limit, store[r.key := b'])
  }

  function Decisions(store: map<string, Entry>, requests: seq<Request>): seq<bool>
    decreases |requests|
  {
    if requests == [] then []
    else
      var (allowed, store') := AllowRequest(store, requests[0]);
      [allowed] + Decisions(store', requests[1..])
  }

  function FallbackDecisions(store: map<string, Bucket>, requests: seq<Request>): seq<bool>
    decreases |requests|
  {
    if requests == [] then []
    else
      var (allowed, store') := AllowFallback(store, requests[0]);
      [allowed] + FallbackDecisions(store', requests[1..])
  }

  ghost predicate SameCounters(store: map<string, Entry>, buckets: map<string, Bucket>) {
    store.Keys == buckets.Keys
    && forall k :: k in store ==> store[k] == Entry(buckets[k].count, Some(buckets[k].expiresAt)) && buckets[k].count >= 1
  }

  /** The two stores decide every list of requests alike, whatever its keys, limits, windows and times. */
  lemma {:induction false} FallbackDecidesAlike(store: map<string, Entry>, buckets: map<string, Bucket>, requests: seq<Request>)
    requires SameCounters(store, buckets)
    requires forall i :: 0 <= i < |requests| ==> requests[i].window > 0
    ensures Decisions(store, requests) == FallbackDecisions(buckets, requests)
    decreases |requests|
  {
    if requests != [] {
      FallbackDecidesAlike(AllowRequest(store, requests[0]).1, AllowFallback(buckets, requests[0]).1, requests[1..]);
    }
  }

  /** What a caller of the limiter sees; Unavailable is the 503 of a backend error when failing closed. */
  datatype Verdict = Admit | Refuse | Unavailable

  class RateLimiter {
    const redis: InMemoryRedis
    const failOpen: bool
    var fallback: map<string, Bucket>

    constructor (redis: InMemoryRedis, failOpen: bool)
      ensures this.redis == redis && this.failOpen == failOpen && fallback == map[]
    {
      this.redis, this.failOpen, fallback := redis, failOpen, map[];
    }

    method AllowFallbackRequest(r: Request) returns (allowed: bool)
      modifies `fallback
      ensures (allowed, fallback) == AllowFallback(old(fallback), r)
    {
      var count, expiresAt := 0, r.now + r.window;
      if r.key in fallback {
        count, expiresAt := fallback[r.key].count, fallback[r.key].expiresAt;
      }
      if r.now >= expiresAt {
        count := 0;
        expiresAt := r.now + r.window;
      }
      count := count + 1;
      fallback := fallback[r.key := Bucket(count, expiresAt)];
      return count <= r.limit;
    }

    /** A non-positive limit or window switches the limiter off. */
    method Check(r: Request, backendUp: bool) returns (verdict: Verdict)
      modifies `fallback, redis
      ensures r.limit <= 0 || r.window <= 0 ==>
                verdict == Admit && redis.store == old(redis.store) && fallback == old(fallback)
      ensures r.limit > 0 && r.window > 0 && backendUp ==>
                verdict == (if AllowRequest(old(redis.store), r).0 then Admit else Refuse)
                && redis.store == AllowRequest(old(redis.store), r).1 && fallback == old(fallback)
      ensures r.limit > 0 && r.window > 0 && !backendUp && failOpen ==>
                verdict == (if AllowFallback(old(fallback), r).0 then Admit else Refuse)
                && fallback == AllowFallback(old(fallback), r).1 && redis.store == old(redis.store)
      ensures r.limit > 0 && r.window > 0 && !backendUp && !failOpen ==>
                verdict == Unavailable && fallback == old(fallback) && redis.store == old(redis.store)
    {
      if r.limit <= 0 || r.window <= 0 {
        return Admit;
      }
      if backendUp {
        var count := redis.Incr(r.key, r.now);
        if count == 1 {
          ghost var counted := redis.store;
          assert counted[r.key].expiresAt.Some? ==> r.now < counted[r.key].expiresAt.value;
          var _ := redis.Expire(r.key, r.window, r.now);
          SameOutsideKey(redis.store, counted, r.key);
        }
        return if count <= r.limit then Admit else Refuse;
      }
      if failOpen {
        var allowed := AllowFallbackRequest(r);
        return if allowed then Admit else Refuse;
      }
      return Unavailable;
    }
  }
}
