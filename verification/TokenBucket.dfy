/** The token-bucket limiter with LRU eviction; floats are reals, the clock never runs back. */
module TokenBucket {
  import opened Base
  import opened Recency

  datatype Bucket = Bucket(tokens: real, last: real, cap: real, per: real)

  datatype Decision = Decision(allowed: bool, retryAfter: real)

  datatype Limiter = Limiter(order: seq<Key>, buckets: map<Key, Bucket>)

  /** One `check`, with the capacity and period its tier resolves to. */
  datatype Call = Call(key: Key, cap: real, per: real, now: real)

  const EMPTY := Limiter([], map[])

  /** Tokens regained in `dt` seconds. */
  function Gain(dt: real, cap: real, per: real): real
    requires per > 0.0
  {
    (dt / per) * cap
  }

  /** Seconds until a level below one reaches one. */
  function RetryAfter(tokens: real, cap: real, per: real): real
    requires cap > 0.0
  {
    ((1.0 - tokens) / cap) * per
  }

  function Refilled(b: Bucket, now: real): real
    requires b.per > 0.0
  {
    var elapsed := if now > b.last then now - b.last else 0.0;
    var t := b.tokens + Gain(elapsed, b.cap, b.per);
    if t < b.cap then t else b.cap
  }

  function CheckBucket(b: Bucket, now: real): (r: (Bucket, Decision))
    requires b.per > 0.0 && b.cap > 0.0
  {
    var t := Refilled(b, now);
    if t >= 1.0 then (Bucket(t - 1.0, now, b.cap, b.per), Decision(true, 0.0))
    else (Bucket(t, now, b.cap, b.per), Decision(false, RetryAfter(t, b.cap, b.per)))
  }

  ghost predicate BucketOk(b: Bucket, now: real) {
    b.cap >= 1.0 && b.per > 0.0 && 0.0 <= b.tokens <= b.cap && b.last <= now
  }

  predicate CallOk(c: Call) {
    c.cap >= 1.0 && c.per > 0.0
  }

  ghost predicate Inv(l: Limiter, max: nat, now: real) {
    && Distinct(l.order) && Keys(l.order) == l.buckets.Keys && |l.order| <= max
    && forall k :: k in l.buckets ==> BucketOk(l.buckets[k], now)
  }

  /** The bucket a call starts from: the stored one, or a full one. */
  function Current(l: Limiter, c: Call): Bucket {
    if c.key in l.buckets then l.buckets[c.key] else Bucket(c.cap, c.now, c.cap, c.per)
  }

  /** Write the bucket of `k`, move `k` to the end, pop the oldest while over the maximum. */
  function Stored(l: Limiter, k: Key, b: Bucket, max: nat): Limiter {
    var order := Trim(Touch(l.order, k), max);
    Limiter(order, Within(l.buckets[k := b], order))
  }

  function Check(l: Limiter, c: Call, max: nat): (r: (Limiter, Decision))
    requires CallOk(c) && (c.key in l.buckets ==> BucketOk(l.buckets[c.key], c.now))
  {
    var (b, d) := CheckBucket(Current(l, c), c.now);
    (Stored(l, c.key, b, max), d)
  }

  // ---------------------------------------------------------------------
  // Arithmetic of refilling
  // ---------------------------------------------------------------------

  lemma DivAdd(a: real, b: real, per: real)
    requires per > 0.0
    ensures a / per + b / per == (a + b) / per
  {
  }

  lemma GainAdd(a: real, b: real, cap: real, per: real)
    requires per > 0.0
    ensures Gain(a, cap, per) + Gain(b, cap, per) == Gain(a + b, cap, per)
  {
    DivAdd(a, b, per);
    var x, y := a / per, b / per;
    assert x * cap + y * cap == (x + y) * cap;
  }

  /** Refill over [a, b] and then [b, c] is the refill over [a, c]. */
  lemma GainSplit(a: real, b: real, c: real, cap: real, per: real)
    requires per > 0.0
    ensures Gain(b - a, cap, per) + Gain(c - b, cap, per) == Gain(c - a, cap, per)
  {
    GainAdd(b - a, c - b, cap, per);
    assert (b - a) + (c - b) == c - a;
  }

  /** `cap` tokens every `per` seconds. */
  lemma GainIsRate(dt: real, cap: real, per: real)
    requires per > 0.0
    ensures Gain(dt, cap, per) * per == dt * cap
  {
    var x := dt / per;
    assert x * per == dt;
    assert (x * cap) * per == (x * per) * cap;
  }

  lemma GainPositive(a: real, cap: real, per: real)
    requires per > 0.0 && cap > 0.0
    ensures a > 0.0 ==> Gain(a, cap, per) > 0.0
    ensures a == 0.0 ==> Gain(a, cap, per) == 0.0
    ensures a < 0.0 ==> Gain(a, cap, per) < 0.0
  {
    var x := a / per;
    assert x * per == a;
    if a > 0.0 {
      assert x > 0.0;
    } else if a < 0.0 {
      assert x < 0.0;
    } else {
      assert x == 0.0;
    }
  }

  /** Waiting `((1 - t) / cap) * per` regains exactly `1 - t`. */
  lemma GainOfRetry(need: real, cap: real, per: real)
    requires per > 0.0 && cap > 0.0
    ensures Gain((need / cap) * per, cap, per) == need
  {
    var x := need / cap;
    assert x * cap == need;
    assert (x * per) / per == x;
  }

  lemma CheckKeepsBucket(b: Bucket, now: real)
    requires BucketOk(b, now)
    ensures BucketOk(CheckBucket(b, now).0, now)
    ensures Refilled(b, now) <= b.tokens + Gain(now - b.last, b.cap, b.per)
  {
    GainPositive(now - b.last, b.cap, b.per);
  }

  /** Refilling in two steps never yields more than the longer wait allows. */
  lemma RefilledLater(b: Bucket, s: real, t: real)
    requires BucketOk(b, s) && s <= t
    ensures Refilled(b, t) <= Refilled(b, s) + Gain(t - s, b.cap, b.per)
    ensures Refilled(b, t) <= b.cap
  {
    GainPositive(t - s, b.cap, b.per);
    GainPositive(s - b.last, b.cap, b.per);
    GainPositive(t - b.last, b.cap, b.per);
    GainAdd(s - b.last, t - s, b.cap, b.per);
  }

  // ---------------------------------------------------------------------
  // Runs
  // ---------------------------------------------------------------------

  lemma StoredKeys(l: Limiter, k: Key, b: Bucket, max: nat)
    requires Keys(l.order) == l.buckets.Keys
    ensures var l' := Stored(l, k, b, max); Keys(l'.order) == l'.buckets.Keys
  {
    var l' := Stored(l, k, b, max);
    forall x ensures x in l'.order <==> x in l'.buckets {
      if x in l'.order && x != k { SameKeys(l.order, l.buckets, x); }
    }
  }

  lemma StoredKeepsInv(l: Limiter, k: Key, b: Bucket, max: nat, now: real)
    requires Inv(l, max, now) && BucketOk(b, now) && max >= 1
    ensures var l' := Stored(l, k, b, max);
            && Inv(l', max, now) && k in l'.buckets && l'.buckets[k] == b
            && forall x :: x in l'.buckets && x != k ==> x in l.buckets && l'.buckets[x] == l.buckets[x]
  {
    var l' := Stored(l, k, b, max);
    assert Distinct(l'.order) && |l'.order| <= max;
    assert Keys(l'.order) == l'.buckets.Keys by { StoredKeys(l, k, b, max); }
    StoredBuckets(l, k, b, max);
    forall x | x in l'.buckets ensures BucketOk(l'.buckets[x], now) { StoredBucket(l, k, b, max, x); }
  }

  /** The key's own bucket is the one written, every other is as it was. */
  lemma StoredBucket(l: Limiter, k: Key, b: Bucket, max: nat, x: Key)
    requires x in Stored(l, k, b, max).buckets
    ensures if x == k then Stored(l, k, b, max).buckets[x] == b
            else x in l.buckets && Stored(l, k, b, max).buckets[x] == l.buckets[x]
  {
  }

  lemma StoredBuckets(l: Limiter, k: Key, b: Bucket, max: nat)
    requires max >= 1
    ensures var l' := Stored(l, k, b, max);
            && k in l'.buckets && l'.buckets[k] == b
            && forall x :: x in l'.buckets && x != k ==> x in l.buckets && l'.buckets[x] == l.buckets[x]
  {
    TouchedStays(l.order, k, max);
  }

  lemma CheckKeepsInv(l: Limiter, c: Call, max: nat, now: real)
    requires Inv(l, max, now) && CallOk(c) && now <= c.now && max >= 1
    ensures Inv(l, max, c.now)
    ensures Inv(Check(l, c, max).0, max, c.now)
    ensures c.key in Check(l, c, max).0.buckets
    ensures Check(l, c, max).0.buckets[c.key] == CheckBucket(Current(l, c), c.now).0
    ensures forall k :: k in Check(l, c, max).0.buckets && k != c.key ==>
              k in l.buckets && Check(l, c, max).0.buckets[k] == l.buckets[k]
  {
    CheckKeepsBucket(Current(l, c), c.now);
    StoredKeepsInv(l, c.key, CheckBucket(Current(l, c), c.now).0, max, c.now);
  }

  /** A key without a bucket gets one of its own tier, a token taken; an allowed check names no wait. */
  lemma CheckAnswers(l: Limiter, c: Call, max: nat, now: real)
    requires Inv(l, max, now) && CallOk(c) && now <= c.now && max >= 1
    ensures Inv(l, max, c.now)
    ensures var (l', d) := Check(l, c, max);
            && c.key in l'.buckets && l'.buckets[c.key].last == c.now
            && (d.allowed ==> d.retryAfter == 0.0)
            && (c.key !in l.buckets ==>
                  d == Decision(true, 0.0) && l'.buckets[c.key] == Bucket(c.cap - 1.0, c.now, c.cap, c.per))
  {
    CheckKeepsInv(l, c, max, now);
    GainPositive(0.0, c.cap, c.per);
  }

  /** The limiter's states around a list of calls, and the decisions it took. */
  datatype Run = Run(start: real, calls: seq<Call>, states: seq<Limiter>, decisions: seq<Decision>)

  function Time(run: Run, n: nat): real
    requires n <= |run.calls|
  {
    if n == 0 then run.start else run.calls[n - 1].now
  }

  /** The `i`th check is taken on the state before it, no earlier than the check before. */
  ghost predicate StepAt(run: Run, max: nat, i: nat)
    requires i < |run.calls| && |run.states| == |run.calls| + 1 && |run.decisions| == |run.calls|
  {
    var l, c := run.states[i], run.calls[i];
    && CallOk(c) && Time(run, i) <= c.now
    && (c.key in l.buckets ==> BucketOk(l.buckets[c.key], c.now))
    && (run.states[i + 1], run.decisions[i]) == Check(l, c, max)
  }

  /** Checks one after another on a clock that never runs back. */
  ghost predicate IsRun(run: Run, max: nat) {
    && |run.states| == |run.calls| + 1 && |run.decisions| == |run.calls|
    && Inv(run.states[0], max, run.start)
    && forall i :: 0 <= i < |run.calls| ==> StepAt(run, max, i)
  }

  /** Any calls in time order extend a run: nothing is asked of the callers. */
  lemma RunExtends(run: Run, c: Call, max: nat) returns (longer: Run)
    requires IsRun(run, max) && max >= 1 && CallOk(c) && Time(run, |run.calls|) <= c.now
    ensures IsRun(longer, max) && longer.start == run.start && longer.calls == run.calls + [c]
    ensures longer.states[..|run.states|] == run.states && longer.decisions[..|run.calls|] == run.decisions
  {
    var n := |run.calls|;
    assert Inv(run.states[n], max, c.now) by {
      RunKeepsInv(run, max, n);
      CheckKeepsInv(run.states[n], c, max, Time(run, n));
    }
    var r := Check(run.states[n], c, max);
    longer := Run(run.start, run.calls + [c], run.states + [r.0], run.decisions + [r.1]);
    assert longer.states[n] == run.states[n] && Time(longer, n) == Time(run, n);
    assert StepAt(longer, max, n);
    forall i | 0 <= i < |longer.calls| ensures StepAt(longer, max, i) {
      if i < n { StepAtPrefix(run, longer, max, i); }
    }
  }

  lemma StepAtPrefix(run: Run, longer: Run, max: nat, i: nat)
    requires IsRun(run, max) && i < |run.calls|
    requires longer.start == run.start && run.calls <= longer.calls && run.states <= longer.states
    requires run.decisions <= longer.decisions
    requires |longer.states| == |longer.calls| + 1 && |longer.decisions| == |longer.calls|
    ensures StepAt(longer, max, i)
  {
    assert StepAt(run, max, i);
    assert longer.states[i] == run.states[i] && longer.states[i + 1] == run.states[i + 1];
  }

  lemma {:induction false} RunKeepsInv(run: Run, max: nat, n: nat)
    requires IsRun(run, max) && max >= 1 && n <= |run.calls|
    ensures Inv(run.states[n], max, Time(run, n))
  {
    if n > 0 {
      RunKeepsInv(run, max, n - 1);
      assert StepAt(run, max, n - 1);
      CheckKeepsInv(run.states[n - 1], run.calls[n - 1], max, Time(run, n - 1));
    }
  }

  /** Allowed checks of `k` among the first `n`. */
  function Allowed(run: Run, k: Key, n: nat): nat
    requires n <= |run.calls| == |run.decisions|
  {
    if n == 0 then 0
    else Allowed(run, k, n - 1) + (if run.calls[n - 1].key == k && run.decisions[n - 1].allowed then 1 else 0)
  }

  /** Times `k` lost its bucket during the first `n` checks. */
  function Evictions(run: Run, k: Key, n: nat): nat
    requires n < |run.states|
  {
    if n == 0 then 0
    else Evictions(run, k, n - 1) + (if k in run.states[n - 1].buckets && k !in run.states[n].buckets then 1 else 0)
  }

  /** What `k` could spend at time `now`; a key without a bucket would start full. */
  ghost function Level(l: Limiter, k: Key, now: real, cap: real): real
    requires k in l.buckets ==> l.buckets[k].per > 0.0
  {
    if k in l.buckets then Refilled(l.buckets[k], now) else cap
  }

  /** The bucket of `k`, if it has one, has this capacity and period. */
  ghost predicate Tier(l: Limiter, k: Key, cap: real, per: real) {
    k in l.buckets ==> l.buckets[k].cap == cap && l.buckets[k].per == per
  }

  /** Every bucket `k` has or can get during the run has this capacity and period. */
  ghost predicate OneTier(run: Run, k: Key, cap: real, per: real) {
    && |run.states| > 0 && Tier(run.states[0], k, cap, per)
    && forall i :: 0 <= i < |run.calls| && run.calls[i].key == k ==> run.calls[i].cap == cap && run.calls[i].per == per
  }

  /** A check spends the token it allows and nothing else. */
  lemma CheckSpends(b: Bucket, now: real)
    requires BucketOk(b, now)
    ensures (if CheckBucket(b, now).1.allowed then 1.0 else 0.0) + Refilled(CheckBucket(b, now).0, now)
            == Refilled(b, now)
  {
    GainPositive(0.0, b.cap, b.per);
    RefilledLater(b, now, now);
    GainPositive(now - b.last, b.cap, b.per);
  }

  /** What `k` spends in a check and has left is at most what it had, the refill, and a full bucket if it was evicted. */
  ghost predicate LevelDrops(l: Limiter, l': Limiter, c: Call, d: Decision, k: Key, now: real, cap: real, per: real)
    requires per > 0.0 && (k in l.buckets ==> l.buckets[k].per > 0.0) && (k in l'.buckets ==> l'.buckets[k].per > 0.0)
  {
    (if c.key == k && d.allowed then 1.0 else 0.0) + Level(l', k, c.now, cap)
    <= Level(l, k, now, cap) + Gain(c.now - now, cap, per) + (if k in l.buckets && k !in l'.buckets then cap else 0.0)
  }

  /** One check, as far as the level of `k` can tell. */
  lemma LevelStep(l: Limiter, l': Limiter, c: Call, d: Decision, k: Key, now: real, cap: real, per: real)
    requires k in l.buckets ==> BucketOk(l.buckets[k], now)
    requires CallOk(c) && now <= c.now && cap >= 1.0 && per > 0.0
    requires Tier(l, k, cap, per) && (c.key == k ==> c.cap == cap && c.per == per)
    requires c.key == k ==> k in l'.buckets && (l'.buckets[k], d) == CheckBucket(Current(l, c), c.now)
    requires c.key != k && k in l'.buckets ==> k in l.buckets && l'.buckets[k] == l.buckets[k]
    ensures Tier(l', k, cap, per) && LevelDrops(l, l', c, d, k, now, cap, per)
  {
    GainPositive(c.now - now, cap, per);
    if k in l.buckets {
      RefilledLater(l.buckets[k], now, c.now);
      GainPositive(now - l.buckets[k].last, cap, per);
    }
    if c.key == k {
      CheckSpends(Current(l, c), c.now);
      GainPositive(0.0, cap, per);
    }
  }

  /** What the `n`th check does to the buckets: its own is checked, others stay or are evicted. */
  lemma StepFacts(run: Run, max: nat, n: nat)
    requires IsRun(run, max) && max >= 1 && n < |run.calls|
    ensures Inv(run.states[n], max, Time(run, n)) && CallOk(run.calls[n]) && Time(run, n) <= run.calls[n].now
    ensures var c, l, l' := run.calls[n], run.states[n], run.states[n + 1];
            && c.key in l'.buckets
            && (l'.buckets[c.key], run.decisions[n]) == CheckBucket(Current(l, c), c.now)
            && l'.order == Trim(Touch(l.order, c.key), max)
            && forall k :: k in l'.buckets && k != c.key ==> k in l.buckets && l'.buckets[k] == l.buckets[k]
  {
    RunKeepsInv(run, max, n);
    assert StepAt(run, max, n);
    CheckKeepsInv(run.states[n], run.calls[n], max, Time(run, n));
  }

  lemma LevelStepOfRun(run: Run, k: Key, max: nat, n: nat, cap: real, per: real)
    requires IsRun(run, max) && max >= 1 && n < |run.calls|
    requires cap >= 1.0 && per > 0.0 && OneTier(run, k, cap, per) && Tier(run.states[n], k, cap, per)
    ensures Tier(run.states[n], k, cap, per) && Tier(run.states[n + 1], k, cap, per)
    ensures LevelDrops(run.states[n], run.states[n + 1], run.calls[n], run.decisions[n], k, Time(run, n), cap, per)
  {
    StepFacts(run, max, n);
    LevelStep(run.states[n], run.states[n + 1], run.calls[n], run.decisions[n], k, Time(run, n), cap, per);
  }

  /** `n` full buckets. */
  function Buckets(n: nat, cap: real): (r: real)
    ensures r == n as real * cap
  {
    if n == 0 then 0.0 else Buckets(n - 1, cap) + cap
  }

  /**
   Over any run, the allowed checks of a key plus what it still holds are at most what it
   held at the start, plus the refill of the elapsed time, plus one full bucket for every
   time it was evicted.
   */
  lemma {:induction false} AllowedIsBounded(run: Run, k: Key, max: nat, n: nat, cap: real, per: real)
    requires IsRun(run, max) && max >= 1 && n <= |run.calls|
    requires cap >= 1.0 && per > 0.0 && OneTier(run, k, cap, per)
    ensures Tier(run.states[n], k, cap, per)
    ensures Allowed(run, k, n) as real + Level(run.states[n], k, Time(run, n), cap)
            <= Level(run.states[0], k, run.start, cap) + Gain(Time(run, n) - run.start, cap, per)
               + Buckets(Evictions(run, k, n), cap)
  {
    if n == 0 {
      GainPositive(0.0, cap, per);
    } else {
      AllowedIsBounded(run, k, max, n - 1, cap, per);
      LevelStepOfRun(run, k, max, n - 1, cap, per);
      GainSplit(run.start, Time(run, n - 1), Time(run, n), cap, per);
    }
  }

  /**
   In any interval [s, t], a key evicted `e` times gets at most `cap * (1 + e) + cap * (t - s) / per`
   checks allowed; one that keeps its bucket at most `cap + cap * (t - s) / per`.
   */
  lemma AdmissionBound(run: Run, k: Key, max: nat, t: real, cap: real, per: real)
    requires IsRun(run, max) && max >= 1 && Time(run, |run.calls|) <= t
    requires cap >= 1.0 && per > 0.0 && OneTier(run, k, cap, per)
    ensures Allowed(run, k, |run.calls|) as real
            <= cap + Buckets(Evictions(run, k, |run.calls|), cap) + Gain(t - run.start, cap, per)
  {
    var n := |run.calls|;
    AllowedIsBounded(run, k, max, n, cap, per);
    RunKeepsInv(run, max, n);
    GainSplit(run.start, Time(run, n), t, cap, per);
    GainPositive(t - Time(run, n), cap, per);
    LevelInRange(run.states[n], k, max, Time(run, n), cap);
    LevelInRange(run.states[0], k, max, run.start, cap);
  }

  lemma LevelInRange(l: Limiter, k: Key, max: nat, now: real, cap: real)
    requires Inv(l, max, now) && cap >= 1.0 && (k in l.buckets ==> l.buckets[k].cap == cap)
    ensures 0.0 <= Level(l, k, now, cap) <= cap
  {
    if k in l.buckets {
      GainPositive(now - l.buckets[k].last, cap, l.buckets[k].per);
    }
  }

  // ---------------------------------------------------------------------
  // Denials
  // ---------------------------------------------------------------------

  /** The bucket holds less than a token and reaches exactly one at time `due`. */
  ghost predicate DueAt(b: Bucket, due: real)
    requires b.per > 0.0
  {
    b.tokens < 1.0 && b.tokens + Gain(due - b.last, b.cap, b.per) == 1.0
  }

  /** `retry_after` names the moment the next token is there. */
  lemma DenialIsDue(b: Bucket, now: real)
    requires BucketOk(b, now) && !CheckBucket(b, now).1.allowed
    ensures DueAt(CheckBucket(b, now).0, now + CheckBucket(b, now).1.retryAfter)
    ensures CheckBucket(b, now).1.retryAfter > 0.0
  {
    var t := Refilled(b, now);
    var r := RetryAfter(t, b.cap, b.per);
    GainOfRetry(1.0 - t, b.cap, b.per);
    assert now + r - now == r;
    GainPositive(r, b.cap, b.per);
  }

  /** A check succeeds exactly from `due` on, and a denied one leaves `due` where it was. */
  lemma DueCheck(b: Bucket, due: real, m: real)
    requires BucketOk(b, m) && DueAt(b, due)
    ensures CheckBucket(b, m).1.allowed <==> m >= due
    ensures m < due ==> DueAt(CheckBucket(b, m).0, due)
  {
    GainSplit(b.last, m, due, b.cap, b.per);
    GainPositive(m - b.last, b.cap, b.per);
    GainPositive(due - m, b.cap, b.per);
  }

  lemma {:induction false} StaysDue(run: Run, k: Key, max: nat, due: real, n: nat)
    requires IsRun(run, max) && max >= 1 && n <= |run.calls|
    requires k in run.states[0].buckets && DueAt(run.states[0].buckets[k], due)
    requires Evictions(run, k, n) == 0 && Allowed(run, k, n) == 0
    ensures k in run.states[n].buckets && run.states[n].buckets[k].per > 0.0 && DueAt(run.states[n].buckets[k], due)
  {
    if n > 0 {
      StaysDue(run, k, max, due, n - 1);
      StepFacts(run, max, n - 1);
      if run.calls[n - 1].key == k {
        DueCheck(run.states[n - 1].buckets[k], due, run.calls[n - 1].now);
      }
    }
  }

  /**
   After a denial at `start` with `retry_after` r, and with only denied checks of the key
   since, the next check is allowed if and only if it comes at `start + r` or later.
   */
  lemma RetryAfterIsExact(b: Bucket, run: Run, k: Key, max: nat, n: nat)
    requires BucketOk(b, run.start) && !CheckBucket(b, run.start).1.allowed
    requires IsRun(run, max) && max >= 1 && n < |run.calls| && run.calls[n].key == k
    requires k in run.states[0].buckets && run.states[0].buckets[k] == CheckBucket(b, run.start).0
    requires Evictions(run, k, n) == 0 && Allowed(run, k, n) == 0
    ensures run.decisions[n].allowed <==> run.calls[n].now >= run.start + CheckBucket(b, run.start).1.retryAfter
  {
    var due := run.start + CheckBucket(b, run.start).1.retryAfter;
    DenialIsDue(b, run.start);
    StaysDue(run, k, max, due, n);
    StepFacts(run, max, n);
    DueCheck(run.states[n].buckets[k], due, run.calls[n].now);
  }

  // ---------------------------------------------------------------------
  // Every answer, from the checks alone
  // ---------------------------------------------------------------------

  /** The `f`th check gives `k` a bucket, which it still has after the first `n`. */
  ghost predicate Lives(run: Run, k: Key, f: nat, n: nat)
    requires n < |run.states| == |run.calls| + 1
  {
    && f < n && run.calls[f].key == k && k !in run.states[f].buckets
    && forall j :: f < j <= n ==> k in run.states[j].buckets
  }

  /** What a bucket that was full at the `i`th check could hold at `t`, the checks allowed since taken off. */
  function FullSince(run: Run, k: Key, f: nat, i: nat, n: nat, t: real): real
    requires f < |run.calls| == |run.decisions| && CallOk(run.calls[f]) && i < n <= |run.calls|
  {
    var c := run.calls[f];
    c.cap + Gain(t - run.calls[i].now, c.cap, c.per) - (Allowed(run, k, n) - Allowed(run, k, i)) as real
  }

  /** Waiting in two steps refills as waiting in one. */
  lemma RefilledTwice(b: Bucket, s: real, t: real)
    requires b.per > 0.0 && b.cap > 0.0 && b.last <= s <= t
    ensures Refilled(b, t) == var x := Refilled(b, s) + Gain(t - s, b.cap, b.per); if x < b.cap then x else b.cap
  {
    GainPositive(t - s, b.cap, b.per);
    GainPositive(s - b.last, b.cap, b.per);
    GainPositive(t - b.last, b.cap, b.per);
    GainAdd(s - b.last, t - s, b.cap, b.per);
    assert (s - b.last) + (t - s) == t - b.last;
  }

  /** `x` is the least of a full bucket and what is left since any check from `f` on. */
  ghost predicate IsLeast(run: Run, k: Key, f: nat, n: nat, t: real, x: real)
    requires f < n <= |run.calls| == |run.decisions| && CallOk(run.calls[f])
  {
    && x <= run.calls[f].cap
    && (forall i :: f <= i < n ==> x <= FullSince(run, k, f, i, n, t))
    && (x == run.calls[f].cap || exists i :: f <= i < n && x == FullSince(run, k, f, i, n, t))
  }

  /** The bucket of `k` has the tier of the check that created it, and this much in it at `t`. */
  ghost predicate Holds(run: Run, k: Key, f: nat, n: nat, t: real)
    requires f < n <= |run.calls| == |run.decisions| && |run.states| == |run.calls| + 1 && CallOk(run.calls[f])
  {
    && k in run.states[n].buckets
    && var b := run.states[n].buckets[k];
       && b.cap == run.calls[f].cap && b.per == run.calls[f].per && b.last <= Time(run, n)
       && IsLeast(run, k, f, n, t, Refilled(b, t))
  }

  /** A new bucket starts full and its first check takes a token. */
  lemma HoldsAtBirth(run: Run, k: Key, max: nat, f: nat, t: real)
    requires IsRun(run, max) && max >= 1 && f < |run.calls| && run.calls[f].key == k && k !in run.states[f].buckets
    requires t >= run.calls[f].now
    ensures run.decisions[f] == Decision(true, 0.0)
    ensures CallOk(run.calls[f]) && Holds(run, k, f, f + 1, t)
  {
    var c, m := run.calls[f], f + 1;
    assert CallOk(c) by { StepFacts(run, max, f); }
    assert k in run.states[m].buckets && run.states[m].buckets[k] == Bucket(c.cap - 1.0, c.now, c.cap, c.per)
           && run.decisions[f] == Decision(true, 0.0) by {
      StepFacts(run, max, f);
      GainPositive(0.0, c.cap, c.per);
    }
    assert FullSince(run, k, f, f, m, t) == c.cap - 1.0 + Gain(t - c.now, c.cap, c.per);
    assert IsLeast(run, k, f, m, t, Refilled(run.states[m].buckets[k], t)) by { GainPositive(t - c.now, c.cap, c.per); }
  }

  lemma LaterThanBefore(run: Run, max: nat, n: nat)
    requires IsRun(run, max) && n < |run.calls|
    ensures Time(run, n) <= run.calls[n].now
  {
    assert StepAt(run, max, n);
  }

  lemma FullSinceOther(run: Run, k: Key, f: nat, i: nat, n: nat, t: real)
    requires |run.calls| == |run.decisions| && f < n < |run.calls| && i < n && CallOk(run.calls[f]) && run.calls[n].key != k
    ensures FullSince(run, k, f, i, n + 1, t) == FullSince(run, k, f, i, n, t)
  {
  }

  lemma FullSinceNow(run: Run, k: Key, f: nat, n: nat, t: real)
    requires |run.calls| == |run.decisions| && f < n < |run.calls| && CallOk(run.calls[f]) && t >= run.calls[n].now
    requires run.calls[n].key != k
    ensures FullSince(run, k, f, n, n + 1, t) >= run.calls[f].cap
  {
    var c := run.calls[f];
    GainPositive(t - run.calls[n].now, c.cap, c.per);
    assert FullSince(run, k, f, n, n + 1, t) == c.cap + Gain(t - run.calls[n].now, c.cap, c.per);
  }

  /** A check of another key changes nothing. */
  lemma HoldsOther(run: Run, k: Key, max: nat, f: nat, n: nat, t: real)
    requires IsRun(run, max) && max >= 1 && f < n < |run.calls| && CallOk(run.calls[f])
    requires run.calls[n].key != k && k in run.states[n + 1].buckets && t >= run.calls[n].now
    requires Holds(run, k, f, n, t)
    ensures Holds(run, k, f, n + 1, t)
  {
    assert k in run.states[n].buckets && run.states[n + 1].buckets[k] == run.states[n].buckets[k] by {
      StepFacts(run, max, n);
    }
    LaterThanBefore(run, max, n);
    var x, m := Refilled(run.states[n].buckets[k], t), n + 1;
    assert x <= FullSince(run, k, f, n, m, t) by { FullSinceNow(run, k, f, n, t); }
    forall i | f <= i < m ensures x <= FullSince(run, k, f, i, m, t) {
      if i < n { FullSinceOther(run, k, f, i, n, t); }
    }
    if x != run.calls[f].cap {
      var i :| f <= i < n && x == FullSince(run, k, f, i, n, t);
      FullSinceOther(run, k, f, i, n, t);
    }
    assert IsLeast(run, k, f, m, t, x);
  }

  /** The level a check of `k` finds decides it, and is what the later levels start from. */
  lemma OwnCheck(run: Run, k: Key, max: nat, f: nat, n: nat)
    requires IsRun(run, max) && max >= 1 && f < n < |run.calls| && CallOk(run.calls[f]) && run.calls[n].key == k
    requires Holds(run, k, f, n, run.calls[n].now)
    ensures var x := Refilled(run.states[n].buckets[k], run.calls[n].now);
            && IsLeast(run, k, f, n, run.calls[n].now, x)
            && (run.decisions[n].allowed <==> x >= 1.0)
            && (run.decisions[n].allowed ==> run.decisions[n].retryAfter == 0.0)
            && k in run.states[n + 1].buckets
            && run.states[n + 1].buckets[k] == Bucket(x - (if run.decisions[n].allowed then 1.0 else 0.0),
                                                      run.calls[n].now, run.calls[f].cap, run.calls[f].per)
  {
    StepFacts(run, max, n);
  }

  lemma FullSinceLater(run: Run, k: Key, f: nat, i: nat, n: nat, t: real)
    requires |run.calls| == |run.decisions| && f < n < |run.calls| && i < n && CallOk(run.calls[f]) && run.calls[n].key == k
    ensures FullSince(run, k, f, i, n + 1, t)
            == FullSince(run, k, f, i, n, run.calls[n].now) + Gain(t - run.calls[n].now, run.calls[f].cap, run.calls[f].per)
               - (if run.decisions[n].allowed then 1.0 else 0.0)
  {
    GainSplit(run.calls[i].now, run.calls[n].now, t, run.calls[f].cap, run.calls[f].per);
  }

  lemma HoldsOwn(run: Run, k: Key, max: nat, f: nat, n: nat, t: real)
    requires IsRun(run, max) && max >= 1 && f < n < |run.calls| && CallOk(run.calls[f])
    requires run.calls[n].key == k && t >= run.calls[n].now
    requires Holds(run, k, f, n, run.calls[n].now)
    ensures Holds(run, k, f, n + 1, t)
  {
    OwnCheck(run, k, max, f, n);
    var c, now := run.calls[f], run.calls[n].now;
    var x, b := Refilled(run.states[n].buckets[k], now), run.states[n + 1].buckets[k];
    var a := if run.decisions[n].allowed then 1.0 else 0.0;
    var g := Gain(t - now, c.cap, c.per);
    assert g >= 0.0 by { GainPositive(t - now, c.cap, c.per); }
    assert Refilled(b, t) == if x - a + g < c.cap then x - a + g else c.cap by {
      GainPositive(t - now, c.cap, c.per);
      GainPositive(0.0, c.cap, c.per);
    }
    LeastLater(run, k, f, n, t, x, Refilled(b, t));
  }

  lemma LeastLater(run: Run, k: Key, f: nat, n: nat, t: real, x: real, y: real)
    requires |run.calls| == |run.decisions| && f < n < |run.calls| && CallOk(run.calls[f])
    requires run.calls[n].key == k && IsLeast(run, k, f, n, run.calls[n].now, x)
    requires var c := run.calls[f];
             var z := x - (if run.decisions[n].allowed then 1.0 else 0.0) + Gain(t - run.calls[n].now, c.cap, c.per);
             y == if z < c.cap then z else c.cap
    ensures IsLeast(run, k, f, n + 1, t, y)
  {
    var c, m := run.calls[f], n + 1;
    var a := if run.decisions[n].allowed then 1.0 else 0.0;
    var g := Gain(t - run.calls[n].now, c.cap, c.per);
    assert FullSince(run, k, f, n, m, t) == c.cap + g - a;
    forall i | f <= i < m ensures y <= FullSince(run, k, f, i, m, t) {
      if i < n { FullSinceLater(run, k, f, i, n, t); }
    }
    if y != c.cap {
      if x == c.cap {
        assert y == FullSince(run, k, f, n, m, t);
      } else {
        var i :| f <= i < n && x == FullSince(run, k, f, i, n, run.calls[n].now);
        FullSinceLater(run, k, f, i, n, t);
        assert y == FullSince(run, k, f, i, m, t);
      }
    }
  }

  lemma {:induction false} HoldsAlways(run: Run, k: Key, max: nat, f: nat, n: nat, t: real)
    requires IsRun(run, max) && max >= 1 && n <= |run.calls| && Lives(run, k, f, n) && t >= Time(run, n)
    ensures CallOk(run.calls[f]) && Holds(run, k, f, n, t)
  {
    assert CallOk(run.calls[f]) by { StepFacts(run, max, f); }
    if f == n - 1 {
      HoldsAtBirth(run, k, max, f, t);
    } else if run.calls[n - 1].key == k {
      LaterThanBefore(run, max, n - 1);
      HoldsAlways(run, k, max, f, n - 1, run.calls[n - 1].now);
      HoldsOwn(run, k, max, f, n - 1, t);
    } else {
      LaterThanBefore(run, max, n - 1);
      HoldsAlways(run, k, max, f, n - 1, t);
      HoldsOther(run, k, max, f, n - 1, t);
    }
  }

  /** A check of a key without a bucket is allowed. */
  lemma NewKeyIsAllowed(run: Run, max: nat, f: nat)
    requires IsRun(run, max) && max >= 1 && f < |run.calls| && run.calls[f].key !in run.states[f].buckets
    ensures run.decisions[f] == Decision(true, 0.0)
  {
    HoldsAtBirth(run, run.calls[f].key, max, f, run.calls[f].now);
  }

  /**
   With the bucket its `f`th check gave it, of `cap` tokens per `per` seconds, a key is denied
   exactly when a bucket full at some check since would by now hold less than one token, the
   checks allowed since that one (itself included) taken off. Whatever tier later checks name.
   */
  lemma DeniedIff(run: Run, k: Key, max: nat, f: nat, n: nat)
    requires IsRun(run, max) && max >= 1 && n < |run.calls| && run.calls[n].key == k && Lives(run, k, f, n)
    ensures CallOk(run.calls[f])
    ensures !run.decisions[n].allowed <==> exists i :: f <= i < n && FullSince(run, k, f, i, n, run.calls[n].now) < 1.0
    ensures run.decisions[n].allowed ==> run.decisions[n].retryAfter == 0.0
  {
    assert Time(run, n) <= run.calls[n].now && CallOk(run.calls[f]) by {
      LaterThanBefore(run, max, n);
      assert StepAt(run, max, f);
    }
    HoldsAlways(run, k, max, f, n, run.calls[n].now);
    OwnCheck(run, k, max, f, n);
  }

  lemma {:induction false} AllowedGrows(run: Run, k: Key, i: nat, n: nat)
    requires i <= n <= |run.calls| == |run.decisions|
    ensures Allowed(run, k, i) <= Allowed(run, k, n)
  {
    if i < n { AllowedGrows(run, k, i, n - 1); }
  }

  lemma {:induction false} CallsInOrder(run: Run, max: nat, i: nat, n: nat)
    requires IsRun(run, max) && i <= n < |run.calls|
    ensures run.calls[i].now <= run.calls[n].now
  {
    if i < n {
      CallsInOrder(run, max, i, n - 1);
      LaterThanBefore(run, max, n);
    }
  }

  /** A new key's first `cap` checks are allowed while it keeps its bucket, and a check that finds a token always is. */
  lemma BurstIsAllowed(run: Run, k: Key, max: nat, f: nat, n: nat)
    requires IsRun(run, max) && max >= 1 && n < |run.calls| && run.calls[n].key == k && Lives(run, k, f, n)
    requires (Allowed(run, k, n) - Allowed(run, k, f) + 1) as real <= run.calls[f].cap
    ensures run.decisions[n] == Decision(true, 0.0)
  {
    DeniedIff(run, k, max, f, n);
    forall i | f <= i < n ensures FullSince(run, k, f, i, n, run.calls[n].now) >= 1.0 {
      BurstLeaves(run, k, max, f, i, n);
    }
    assert run.decisions[n].allowed;
    assert StepAt(run, max, n);
  }

  lemma BurstLeaves(run: Run, k: Key, max: nat, f: nat, i: nat, n: nat)
    requires IsRun(run, max) && f <= i < n < |run.calls| && CallOk(run.calls[f])
    requires (Allowed(run, k, n) - Allowed(run, k, f) + 1) as real <= run.calls[f].cap
    ensures FullSince(run, k, f, i, n, run.calls[n].now) >= 1.0
  {
    AllowedGrows(run, k, f, i);
    CallsInOrder(run, max, i, n);
    var c, dt := run.calls[f], run.calls[n].now - run.calls[i].now;
    assert Gain(dt, c.cap, c.per) >= 0.0 by { GainPositive(dt, c.cap, c.per); }
    var spent, since := Allowed(run, k, n) - Allowed(run, k, i), Allowed(run, k, n) - Allowed(run, k, f);
    assert (since + 1) as real == since as real + 1.0 && spent as real <= since as real;
  }

  /** From a fresh limiter, a key with a bucket got it in some check and has had it ever since. */
  lemma {:induction false} BirthOf(run: Run, k: Key, max: nat, n: nat) returns (f: nat)
    requires IsRun(run, max) && max >= 1 && n <= |run.calls| && run.states[0] == EMPTY && k in run.states[n].buckets
    ensures f < n && Lives(run, k, f, n)
  {
    assert k !in run.states[n - 1].buckets ==> run.calls[n - 1].key == k by { StepFacts(run, max, n - 1); }
    if k in run.states[n - 1].buckets {
      f := BirthOf(run, k, max, n - 1);
    } else {
      f := n - 1;
    }
  }

  // ---------------------------------------------------------------------
  // Which keys keep their bucket
  // ---------------------------------------------------------------------

  /** Keys of the first `n` checks, in order. */
  function Checked(run: Run, n: nat): (r: seq<Key>)
    requires n <= |run.calls|
    ensures |r| == n
  {
    if n == 0 then [] else Checked(run, n - 1) + [run.calls[n - 1].key]
  }

  /** From a fresh limiter, the keys tracked are the `max` most recently checked ones. */
  lemma {:induction false} TracksMostRecent(run: Run, max: nat, n: nat)
    requires IsRun(run, max) && max >= 1 && n <= |run.calls| && run.states[0] == EMPTY
    ensures run.states[n].order == Bounded(Checked(run, n), max)
  {
    if n > 0 {
      TracksMostRecent(run, max, n - 1);
      StepFacts(run, max, n - 1);
      assert Checked(run, n)[..n - 1] == Checked(run, n - 1);
    }
  }

  /** A key keeps its bucket exactly while fewer than `max` distinct other keys were checked since its own last check. */
  lemma KeptIff(run: Run, max: nat, n: nat, k: Key)
    requires IsRun(run, max) && max >= 1 && n <= |run.calls| && run.states[0] == EMPTY
    requires k in Checked(run, n)
    ensures k in run.states[n].buckets <==> |Since(Checked(run, n), k)| < max
  {
    TracksMostRecent(run, max, n);
    SurvivesIff(Checked(run, n), max, k);
    RunKeepsInv(run, max, n);
    assert k in Keys(run.states[n].order) <==> k in run.states[n].buckets;
  }

  // ---------------------------------------------------------------------
  // The imperative limiter
  // ---------------------------------------------------------------------

  /** Capacity and period of a tier: its own, else the anonymous one, else 20 per 60 seconds. */
  function TierOf(defaults: map<string, (nat, nat)>, tier: string): (nat, nat) {
    if tier in defaults then defaults[tier]
    else if "anon" in defaults then defaults["anon"]
    else (20, 60)
  }

  predicate OfTier(b: Bucket, tier: (nat, nat)) {
    b.cap == tier.0 as real && b.per == tier.1 as real
  }

  class RateLimiter {
    const defaults: map<string, (nat, nat)>
    const maxKeys: nat
    var order: seq<Key>
    var buckets: map<Key, Bucket>

    ghost function State(): Limiter
      reads this
    {
      Limiter(order, buckets)
    }

    ghost predicate Valid(now: real)
      reads this
    {
      && maxKeys >= 1 && Inv(State(), maxKeys, now)
      && forall t :: t in defaults ==> defaults[t].0 >= 1 && defaults[t].1 >= 1
    }

    function CallOf(key: Key, tier: string, now: real): Call {
      var (cap, per) := TierOf(defaults, tier);
      Call(key, cap as real, per as real, now)
    }

    constructor (defaults: map<string, (nat, nat)>, maxKeys: nat)
      requires maxKeys >= 1 && forall t :: t in defaults ==> defaults[t].0 >= 1 && defaults[t].1 >= 1
      ensures this.defaults == defaults && this.maxKeys == maxKeys
      ensures State() == EMPTY && forall now :: Valid(now)
    {
      this.defaults, this.maxKeys := defaults, maxKeys;
      order, buckets := [], map[];
    }

    /** Add a new key and pop the oldest while over the maximum. */
    method Track(key: Key, b: Bucket)
      requires Keys(order) == buckets.Keys && Distinct(order + [key])
      modifies this
      ensures order == Trim(old(order) + [key], maxKeys)
      ensures buckets == Within(old(buckets)[key := b], order)
    {
      assert forall k :: k in buckets <==> k in Keys(order);
      buckets := buckets[key := b];
      order := order + [key];
      ghost var full, all := buckets, order;
      assert buckets == Within(full, order);
      while |order| > maxKeys
        invariant |order| <= |all| && order == all[|all| - |order|..]
        invariant |order| < |all| ==> |order| >= maxKeys
        invariant buckets == Within(full, order)
        decreases |order|
      {
        WithinTail(full, order);
        buckets := buckets - {order[0]};
        order := order[1..];
      }
    }

    /** The key's bucket, a full one if it had none; its key is now the most recent. */
    method Recall(key: Key, c: Call) returns (b: Bucket)
      requires Keys(order) == buckets.Keys && Distinct(order) && |order| <= maxKeys && maxKeys >= 1
      requires c.key == key
      modifies this
      ensures b == Current(old(State()), c)
      ensures order == Trim(Touch(old(order), key), maxKeys) && key in order
      ensures Within(old(buckets) - {key}, order) == buckets - {key}
    {
      SameKeys(order, buckets, key);
      ghost var known := buckets;
      if key in buckets {
        KnownTouch(order, key, maxKeys);
        WithinTouched(buckets, order, key);
        b := buckets[key];
        order := Drop(order, {key}) + [key];
      } else {
        NewTouch(order, key, maxKeys);
        b := Bucket(c.cap, c.now, c.cap, c.per);
        Track(key, b);
        WithinMinus(known, order, key, b);
      }
    }

    method CheckKey(key: Key, tier: string, now: real) returns (d: Decision)
      requires Valid(now)
      modifies this
      ensures Valid(now)
      ensures (State(), d) == Check(old(State()), CallOf(key, tier, now), maxKeys)
      ensures d.allowed ==> d.retryAfter == 0.0
      ensures key in buckets && buckets[key].last == now
      ensures key !in old(buckets) ==> d == Decision(true, 0.0) && buckets[key].tokens == buckets[key].cap - 1.0
      ensures key !in old(buckets) ==>
                && (tier in defaults ==> OfTier(buckets[key], defaults[tier]))
                && (tier !in defaults && "anon" in defaults ==> OfTier(buckets[key], defaults["anon"]))
                && (tier !in defaults && "anon" !in defaults ==> OfTier(buckets[key], (20, 60)))
    {
      var (capacity, period) := TierOf(defaults, tier);
      var c := Call(key, capacity as real, period as real, now);
      ghost var before := State();
      CheckKeepsInv(before, c, maxKeys, now);
      CheckAnswers(before, c, maxKeys, now);
      var isNew := key !in buckets;
      var b := Recall(key, c);
      var spent;
      spent, d := Spend(b, now, isNew);
      WithinSet(before.buckets, buckets, order, key, spent);
      buckets := buckets[key := spent];
    }

    /** Refill a known bucket for the elapsed time, then take a token if there is one. */
    static method Spend(b: Bucket, now: real, isNew: bool) returns (b': Bucket, d: Decision)
      requires BucketOk(b, now) && (isNew ==> b.tokens == b.cap && b.last == now)
      ensures (b', d) == CheckBucket(b, now)
    {
      var tokens := b.tokens;
      if isNew {
        GainPositive(0.0, b.cap, b.per);
      } else {
        var elapsed := if now - b.last > 0.0 then now - b.last else 0.0;
        tokens := tokens + Gain(elapsed, b.cap, b.per);
        if tokens > b.cap { tokens := b.cap; }
      }
      assert tokens == Refilled(b, now);
      if tokens >= 1.0 {
        return Bucket(tokens - 1.0, now, b.cap, b.per), Decision(true, 0.0);
      }
      return Bucket(tokens, now, b.cap, b.per), Decision(false, RetryAfter(tokens, b.cap, b.per));
    }
  }
}
