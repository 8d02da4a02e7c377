/**
 The per-key sliding-window limiter. The reference never forgets: a log of every admitted
 hit, from which each check counts those of the last `window` seconds. The class pops and
 prunes, and answers every check as the log does. Times are reals on a clock that never
 runs back.
 */
module SlidingWindow {

  datatype Hit = Hit(key: string, at: real)

  /** When the hits of `key` were admitted, oldest first. */
  function Times(log: seq<Hit>, key: string): (r: seq<real>) {
    if log == [] then []
    else Times(log[..|log| - 1], key) + (if log[|log| - 1].key == key then [log[|log| - 1].at] else [])
  }

  /** The times at most `window` before `now`. */
  function Recent(ts: seq<real>, now: real, window: real): (r: seq<real>) {
    if ts == [] then []
    else Recent(ts[..|ts| - 1], now, window) + (if now - ts[|ts| - 1] <= window then [ts[|ts| - 1]] else [])
  }

  /** What the unbounded log answers: admitted or not, and the seconds to wait. */
  function Answer(log: seq<Hit>, key: string, now: real, limit: nat, window: real): (bool, int)
    requires limit >= 1
  {
    var recent := Recent(Times(log, key), now, window);
    if |recent| >= limit then (false, (window - (now - recent[0])).Floor + 1) else (true, 0)
  }

  function Append(log: seq<Hit>, key: string, now: real, admitted: bool): seq<Hit> {
    if admitted then log + [Hit(key, now)] else log
  }

  ghost predicate Sorted(ts: seq<real>) {
    forall i, j :: 0 <= i < j < |ts| ==> ts[i] <= ts[j]
  }

  /** A log whose every hit was admitted by the hits before it, in time order up to `clock`. */
  ghost predicate Admitted(log: seq<Hit>, clock: real, limit: nat, window: real) {
    limit >= 1 &&
    (log == [] ||
     var last, rest := log[|log| - 1], log[..|log| - 1];
     && last.at <= clock
     && Answer(rest, last.key, last.at, limit, window).0
     && Admitted(rest, last.at, limit, window))
  }

  // ---------------------------------------------------------------------
  // The reference
  // ---------------------------------------------------------------------

  lemma {:induction false} TimesSorted(log: seq<Hit>, clock: real, limit: nat, window: real, key: string)
    requires Admitted(log, clock, limit, window)
    ensures Sorted(Times(log, key))
    ensures forall i :: 0 <= i < |Times(log, key)| ==> Times(log, key)[i] <= clock
  {
    if log != [] {
      TimesSorted(log[..|log| - 1], log[|log| - 1].at, limit, window, key);
    }
  }

  /** In a sorted list the recent times are the tail from the first recent one on. */
  lemma {:induction false} RecentIsTail(ts: seq<real>, now: real, window: real, d: nat)
    requires Sorted(ts) && d <= |ts|
    requires forall i :: 0 <= i < d ==> now - ts[i] > window
    requires d < |ts| ==> now - ts[d] <= window
    ensures Recent(ts, now, window) == ts[d..]
  {
    if |ts| > 0 {
      var n := |ts| - 1;
      if d <= n {
        RecentIsTail(ts[..n], now, window, d);
        assert ts[d..] == ts[..n][d..] + [ts[n]];
      } else {
        RecentIsTail(ts[..n], now, window, n);
      }
    }
  }

  /** Position of the first recent time. */
  lemma {:induction false} FirstRecent(ts: seq<real>, now: real, window: real) returns (d: nat)
    requires Sorted(ts)
    ensures d <= |ts| && (d < |ts| ==> now - ts[d] <= window)
    ensures forall i :: 0 <= i < d ==> now - ts[i] > window
    ensures Recent(ts, now, window) == ts[d..]
  {
    d := 0;
    while d < |ts| && now - ts[d] > window
      invariant d <= |ts| && forall i :: 0 <= i < d ==> now - ts[i] > window
    {
      d := d + 1;
    }
    RecentIsTail(ts, now, window, d);
  }

  /** Any `limit + 1` admitted hits of a key span more than `window`. */
  lemma {:induction false} HitsSpread(log: seq<Hit>, clock: real, limit: nat, window: real, key: string, i: nat, j: nat)
    requires Admitted(log, clock, limit, window)
    requires i + limit <= j < |Times(log, key)|
    ensures Times(log, key)[j] - Times(log, key)[i] > window
  {
    var last, rest := log[|log| - 1], log[..|log| - 1];
    var ts := Times(rest, key);
    if j < |ts| {
      HitsSpread(rest, last.at, limit, window, key, i, j);
    } else {
      TimesSorted(rest, last.at, limit, window, key);
      var d := FirstRecent(ts, last.at, window);
      assert |ts| - d < limit;
      assert i < d;
    }
  }

  /** Hits within the closed interval from `s` to `e`. */
  function CountIn(ts: seq<real>, s: real, e: real): nat {
    if ts == [] then 0
    else CountIn(ts[..|ts| - 1], s, e) + (if s <= ts[|ts| - 1] <= e then 1 else 0)
  }

  lemma {:induction false} CountAfter(ts: seq<real>, s: real, e: real, m: nat)
    requires Sorted(ts) && m <= |ts| && (m > 0 ==> ts[m - 1] < s)
    ensures CountIn(ts, s, e) <= |ts| - m
  {
    if |ts| > 0 {
      var n := |ts| - 1;
      if m <= n {
        CountAfter(ts[..n], s, e, m);
      } else {
        CountAfter(ts[..n], s, e, n);
      }
    }
  }

  lemma {:induction false} CountUpTo(log: seq<Hit>, clock: real, limit: nat, window: real, key: string, s: real, n: nat)
    requires Admitted(log, clock, limit, window) && n <= |Times(log, key)|
    ensures CountIn(Times(log, key)[..n], s, s + window) <= limit
  {
    var ts := Times(log, key);
    if n > 0 {
      assert ts[..n][..n - 1] == ts[..n - 1];
      if s <= ts[n - 1] <= s + window {
        TimesSorted(log, clock, limit, window, key);
        if n > limit { HitsSpread(log, clock, limit, window, key, n - 1 - limit, n - 1); }
        CountAfter(ts[..n], s, s + window, if n > limit then n - limit else 0);
      } else {
        CountUpTo(log, clock, limit, window, key, s, n - 1);
      }
    }
  }

  /** No closed interval of length `window` holds more than `limit` admitted hits of a key. */
  lemma WindowBound(log: seq<Hit>, clock: real, limit: nat, window: real, key: string, s: real)
    requires Admitted(log, clock, limit, window)
    ensures CountIn(Times(log, key), s, s + window) <= limit
  {
    CountUpTo(log, clock, limit, window, key, s, |Times(log, key)|);
    assert Times(log, key)[..|Times(log, key)|] == Times(log, key);
  }

  /**
   After a denial, with no hit of the key admitted since, a check is admitted exactly once
   the oldest recent hit has left the window; waiting the whole seconds of `retry_after` is
   always enough, and more than the exact wait by at most one second.
   */
  lemma RetrySuffices(log: seq<Hit>, later: seq<Hit>, limit: nat, window: real, key: string, now: real, m: real)
    requires Admitted(log, now, limit, window) && now <= m
    requires !Answer(log, key, now, limit, window).0 && Times(later, key) == Times(log, key)
    ensures var oldest := Recent(Times(log, key), now, window)[0];
            var retry := Answer(log, key, now, limit, window).1 as real;
            && (Answer(later, key, m, limit, window).0 <==> m - oldest > window)
            && (m >= now + retry ==> Answer(later, key, m, limit, window).0)
            && 0.0 < retry <= (oldest + window - now) + 1.0
  {
    TimesSorted(log, now, limit, window, key);
    var ts := Times(log, key);
    var d := FirstRecent(ts, now, window);
    if |ts| - d > limit {
      HitsSpread(log, now, limit, window, key, d, |ts| - 1);
    }
    var d' := FirstRecent(ts, m, window);
    assert d <= d';
    assert d' > d <==> m - ts[d] > window;
  }

  /** Admitted hits of `key` in the closed interval from `s` to `e`. */
  function Hits(log: seq<Hit>, key: string, s: real, e: real): nat {
    if log == [] then 0
    else
      var last := log[|log| - 1];
      Hits(log[..|log| - 1], key, s, e) + (if last.key == key && s <= last.at <= e then 1 else 0)
  }

  /** `h` is the oldest admitted hit of `key` from `s` on. */
  ghost predicate OldestFrom(log: seq<Hit>, key: string, s: real, h: Hit) {
    h in log && h.key == key && s <= h.at && forall g :: g in log && g.key == key && s <= g.at ==> h.at <= g.at
  }

  lemma {:induction false} RecentCountsHits(log: seq<Hit>, clock: real, limit: nat, window: real, key: string, now: real)
    requires Admitted(log, clock, limit, window) && clock <= now
    ensures |Recent(Times(log, key), now, window)| == Hits(log, key, now - window, now)
  {
    if log != [] {
      var last, rest := log[|log| - 1], log[..|log| - 1];
      RecentCountsHits(rest, last.at, limit, window, key, now);
      RecentAppend(Times(rest, key), last.at, now, window);
    }
  }

  lemma RecentAppend(ts: seq<real>, t: real, now: real, window: real)
    ensures Recent(ts + [t], now, window) == Recent(ts, now, window) + (if now - t <= window then [t] else [])
    ensures Recent(ts + [], now, window) == Recent(ts, now, window)
  {
    assert (ts + [t])[..|ts|] == ts && ts + [] == ts;
  }

  lemma {:induction false} OldestIsFirst(log: seq<Hit>, clock: real, limit: nat, window: real, key: string, now: real)
    requires Admitted(log, clock, limit, window) && clock <= now && Recent(Times(log, key), now, window) != []
    ensures OldestFrom(log, key, now - window, Hit(key, Recent(Times(log, key), now, window)[0]))
  {
    var last, rest := log[|log| - 1], log[..|log| - 1];
    assert log == rest + [last];
    RecentAppend(Times(rest, key), last.at, now, window);
    if Recent(Times(rest, key), now, window) == [] {
      RecentCountsHits(rest, last.at, limit, window, key, now);
      NoHits(rest, last.at, limit, window, key, now - window, now);
    } else {
      OldestIsFirst(rest, last.at, limit, window, key, now);
      var oldest := Hit(key, Recent(Times(rest, key), now, window)[0]);
      NotAfter(rest, last.at, limit, window, oldest);
    }
  }

  lemma {:induction false} NoHits(log: seq<Hit>, clock: real, limit: nat, window: real, key: string, s: real, e: real)
    requires Admitted(log, clock, limit, window) && clock <= e && Hits(log, key, s, e) == 0
    ensures forall g :: g in log && g.key == key ==> g.at < s
  {
    if log != [] {
      var last, rest := log[|log| - 1], log[..|log| - 1];
      assert log == rest + [last];
      NoHits(rest, last.at, limit, window, key, s, e);
    }
  }

  lemma {:induction false} NotAfter(log: seq<Hit>, clock: real, limit: nat, window: real, h: Hit)
    requires Admitted(log, clock, limit, window) && h in log
    ensures h.at <= clock
  {
    var last, rest := log[|log| - 1], log[..|log| - 1];
    assert log == rest + [last];
    if h in rest { NotAfter(rest, last.at, limit, window, h); }
  }

  /**
   A check is denied exactly when `limit` admitted hits of its key lie in the closed window before it; the wait
   is then until the oldest of these leaves the window, in whole seconds and one more.
   */
  lemma DeniedIff(log: seq<Hit>, limit: nat, window: real, key: string, now: real)
    requires Admitted(log, now, limit, window)
    ensures Answer(log, key, now, limit, window).0 <==> Hits(log, key, now - window, now) < limit
    ensures Answer(log, key, now, limit, window).0 ==> Answer(log, key, now, limit, window).1 == 0
    ensures !Answer(log, key, now, limit, window).0 ==>
              exists h :: OldestFrom(log, key, now - window, h)
                          && Answer(log, key, now, limit, window).1 == (h.at + window - now).Floor + 1
  {
    RecentCountsHits(log, now, limit, window, key, now);
    if !Answer(log, key, now, limit, window).0 {
      var h := Hit(key, Recent(Times(log, key), now, window)[0]);
      OldestIsFirst(log, now, limit, window, key, now);
      assert window - (now - h.at) == h.at + window - now;
    }
  }

  lemma TimesAppend(log: seq<Hit>, key: string, now: real, k: string)
    ensures Times(log + [Hit(key, now)], k) == Times(log, k) + (if k == key then [now] else [])
  {
    assert (log + [Hit(key, now)])[..|log|] == log;
  }

  lemma AdmittedAppend(log: seq<Hit>, key: string, now: real, limit: nat, window: real)
    requires Admitted(log, now, limit, window) && Answer(log, key, now, limit, window).0
    ensures Admitted(log + [Hit(key, now)], now, limit, window)
  {
    assert (log + [Hit(key, now)])[..|log|] == log;
  }

  // ---------------------------------------------------------------------
  // The imperative limiter
  // ---------------------------------------------------------------------

  /** `q` is the log's times without some that had left the window by `clock`. */
  ghost predicate Kept(q: seq<real>, ts: seq<real>, clock: real, window: real) {
    && |q| <= |ts| && q == ts[|ts| - |q|..]
    && forall i :: 0 <= i < |ts| - |q| ==> clock - ts[i] > window
  }

  lemma AdmittedLater(log: seq<Hit>, clock: real, later: real, limit: nat, window: real)
    requires Admitted(log, clock, limit, window) && clock <= later
    ensures Admitted(log, later, limit, window)
  {
  }

  function DequeOf(hits: map<string, seq<real>>, key: string): seq<real> {
    if key in hits then hits[key] else []
  }

  lemma KeptAfterAdmit(hits: map<string, seq<real>>, log: seq<Hit>, key: string, q: seq<real>, now: real,
                       clock: real, window: real, k: string)
    requires Kept(q, Times(log, key), clock, window) && Kept(DequeOf(hits, k), Times(log, k), clock, window)
    ensures Kept(DequeOf(hits[key := q + [now]], k), Times(log + [Hit(key, now)], k), clock, window)
  {
    TimesAppend(log, key, now, k);
    if k != key { assert Times(log, k) + [] == Times(log, k); }
  }

  class SlidingWindowRateLimiter {
    const limit: nat
    const window: real
    const pruneEvery: int
    var hits: map<string, seq<real>>
    var callsSincePrune: int
    ghost var log: seq<Hit>
    ghost var clock: real

    function Deque(key: string): seq<real>
      reads this`hits
    {
      DequeOf(hits, key)
    }

    ghost predicate Valid()
      reads this`hits, this`log, this`clock
    {
      && Admitted(log, clock, limit, window)
      && forall k :: KeyOk(k)
    }

    ghost predicate KeyOk(k: string)
      reads this`hits, this`log, this`clock
    {
      Kept(Deque(k), Times(log, k), clock, window)
    }

    constructor (limit: nat, window: real, pruneEvery: int, ghost now: real)
      requires limit >= 1
      ensures this.limit == limit && this.window == window && this.pruneEvery == pruneEvery
      ensures Valid() && log == [] && clock == now
    {
      this.limit, this.window, this.pruneEvery := limit, window, pruneEvery;
      hits, callsSincePrune := map[], 0;
      log, clock := [], now;
    }

    /** Drop the keys whose newest hit has left the window. */
    method Prune(now: real)
      requires Valid() && clock <= now
      modifies this`hits, this`clock
      ensures Valid() && clock == now
    {
      AdvanceClock(now);
      var stale := set k | k in hits && (hits[k] == [] || now - hits[k][|hits[k]| - 1] > window);
      while stale != {}
        invariant Valid() && clock == now
        invariant forall k :: k in stale ==> k in hits && (hits[k] == [] || now - hits[k][|hits[k]| - 1] > window)
        decreases stale
      {
        var k :| k in stale;
        Forget(k);
        stale := stale - {k};
      }
    }

    method Forget(k: string)
      requires Valid() && k in hits && (hits[k] == [] || clock - hits[k][|hits[k]| - 1] > window)
      modifies this`hits
      ensures Valid() && hits == old(hits) - {k}
    {
      TimesSorted(log, clock, limit, window, k);
      forall x ensures Kept(if x == k then [] else Deque(x), Times(log, x), clock, window) {
        assert KeyOk(x);
      }
      label before:
      hits := hits - {k};
      assert forall x :: Deque(x) == if x == k then [] else old@before(Deque(x));
      forall x ensures KeyOk(x) {}
    }

    /** Every check, pruned or not, answers as the unbounded log does. */
    method Check(key: string, pruneClock: real, now: real) returns (ok: bool, retryAfter: int)
      requires Valid() && clock <= pruneClock <= now
      modifies this
      ensures Valid() && clock == now
      ensures (ok, retryAfter) == Answer(old(log), key, now, limit, window)
      ensures ok <==> Hits(old(log), key, now - window, now) < limit
      ensures ok ==> retryAfter == 0
      ensures !ok ==> exists h :: OldestFrom(old(log), key, now - window, h) && retryAfter == (h.at + window - now).Floor + 1
      ensures log == if ok then old(log) + [Hit(key, now)] else old(log)
    {
      callsSincePrune := callsSincePrune + 1;
      if callsSincePrune >= pruneEvery {
        Prune(pruneClock);
        callsSincePrune := 0;
      }
      AdvanceClock(now);
      DeniedIff(log, limit, window, key, now);
      ok, retryAfter := Decide(key, now);
    }

    method Decide(key: string, now: real) returns (ok: bool, retryAfter: int)
      requires Valid() && clock == now
      modifies this`hits, this`log
      ensures Valid()
      ensures (ok, retryAfter) == Answer(old(log), key, now, limit, window)
      ensures log == Append(old(log), key, now, ok)
    {
      var q := LiveHits(key, now);
      if |q| >= limit {
        SetDeque(key, q);
        return false, (window - (now - q[0])).Floor + 1;
      }
      Admit(key, q, now);
      return true, 0;
    }

    /** The key's deque with the stale hits popped: the recent times of the log. */
    method LiveHits(key: string, now: real) returns (q: seq<real>)
      requires Valid() && clock == now
      ensures Kept(q, Times(log, key), clock, window)
      ensures q == Recent(Times(log, key), clock, window)
    {
      ghost var ts := Times(log, key);
      assert KeyOk(key);
      q := PopStale(Deque(key), now, window, ts);
      TimesSorted(log, now, limit, window, key);
      RecentIsTail(ts, now, window, |ts| - |q|);
    }

    /** `while q and now - q[0] > window: q.popleft()`. */
    static method PopStale(deque: seq<real>, now: real, window: real, ghost ts: seq<real>) returns (q: seq<real>)
      requires Kept(deque, ts, now, window)
      ensures Kept(q, ts, now, window) && (q != [] ==> now - q[0] <= window)
    {
      q := deque;
      while q != [] && now - q[0] > window
        invariant Kept(q, ts, now, window)
      {
        q := q[1..];
      }
    }

    ghost method AdvanceClock(now: real)
      requires Valid() && clock <= now
      modifies this`clock
      ensures Valid() && clock == now
    {
      ghost var was := clock;
      forall k ensures Kept(DequeOf(hits, k), Times(log, k), now, window) { assert KeyOk(k); }
      AdmittedLater(log, was, now, limit, window);
      clock := now;
      forall k ensures KeyOk(k) {}
    }

    /** `defaultdict` gives every checked key a deque, possibly empty. */
    method SetDeque(key: string, q: seq<real>)
      requires Valid() && Kept(q, Times(log, key), clock, window)
      modifies this`hits
      ensures Valid() && hits == old(hits)[key := q]
    {
      label before:
      hits := hits[key := q];
      forall k ensures KeyOk(k) {
        assert k != key ==> old@before(KeyOk(k));
      }
    }

    method Admit(key: string, q: seq<real>, now: real)
      requires Valid() && Kept(q, Times(log, key), clock, window) && clock == now
      requires Answer(log, key, now, limit, window).0
      modifies this`hits, this`log
      ensures Valid() && log == old(log) + [Hit(key, now)] && hits == old(hits)[key := q + [now]]
    {
      ghost var was, past := hits, log;
      AdmittedAppend(past, key, now, limit, window);
      forall k ensures Kept(DequeOf(was[key := q + [now]], k), Times(past + [Hit(key, now)], k), clock, window) {
        assert KeyOk(k);
        KeptAfterAdmit(was, past, key, q, now, clock, window, k);
      }
      log := log + [Hit(key, now)];
      hits := hits[key := q + [now]];
      forall k ensures KeyOk(k) {}
    }
  }
}
