/**
 The resolved-token cache: sha256(plaintext) -> Principal, bounded by a TTL and by LRU,
 with the sequence counter that lets an eviction overtake a resolve still in flight.

 `Cache` and the functions on it say what each locked section does to the whole cache;
 class `ResolvedTokenCache` is the dictionary-and-loops form, proved equal to them.
 */
module TokenCache {
  import opened Base
  import opened Recency

  datatype Kind = User | Agent

  datatype Principal = Principal(
    id: string, kind: Kind, displayName: Option<string>, isAdmin: bool, userId: Option<string>)

  datatype Entry = Entry(expiresAt: real, principal: Principal)

  datatype Cache = Cache(
    order: seq<Key>,
    entries: map<Key, Entry>,
    seqNo: nat,
    clearedAt: nat,
    evictedAt: map<string, nat>)

  ghost predicate Inv(c: Cache, max: nat) {
    && Distinct(c.order)
    && Keys(c.order) == c.entries.Keys
    && |c.order| <= max
    && c.clearedAt <= c.seqNo
    && forall p :: p in c.evictedAt ==> c.evictedAt[p] <= c.seqNo
  }

  const EMPTY := Cache([], map[], 0, 0, map[])

  /** Sequence number of a principal's latest eviction, -1 when it was never evicted. */
  function Stamp(c: Cache, pid: string): int {
    if pid in c.evictedAt then c.evictedAt[pid] else -1
  }

  /** A put carrying the snapshot `generation` still goes in. */
  predicate Accepts(c: Cache, pid: string, generation: nat) {
    c.clearedAt <= generation && Stamp(c, pid) <= generation
  }

  function Lookup(c: Cache, k: Key, now: real): (r: Option<Principal>) {
    if k in c.entries && now < c.entries[k].expiresAt then Some(c.entries[k].principal) else None
  }

  function AfterGet(c: Cache, k: Key, now: real): (r: Cache) {
    if k !in c.entries then c
    else if Lookup(c, k, now).None? then c.(order := Drop(c.order, {k}), entries := c.entries - {k})
    else c.(order := Touch(c.order, k))
  }

  function AfterPut(c: Cache, k: Key, p: Principal, generation: nat, started: real, ttl: real, max: nat): (r: Cache) {
    if !Accepts(c, p.id, generation) then c
    else
      var order := Trim(Touch(c.order, k), max);
      var entries := c.entries[k := Entry(started + ttl, p)];
      c.(order := order, entries := Within(entries, order))
  }

  function AfterEvict(c: Cache, pid: string): (r: Cache) {
    var gone := set x | x in c.entries && c.entries[x].principal.id == pid;
    c.(order := Drop(c.order, gone), entries := c.entries - gone,
       seqNo := c.seqNo + 1, evictedAt := c.evictedAt[pid := c.seqNo + 1])
  }

  function AfterClear(c: Cache): (r: Cache) {
    c.(order := [], entries := map[], seqNo := c.seqNo + 1, clearedAt := c.seqNo + 1)
  }

  // ---------------------------------------------------------------------
  // Histories
  // ---------------------------------------------------------------------

  datatype Op =
    | Get(key: Key, now: real)
    | Put(key: Key, principal: Principal, generation: nat, started: real)
    | EvictPrincipal(pid: string)
    | Clear

  function Step(c: Cache, op: Op, ttl: real, max: nat): (r: Cache) {
    match op
    case Get(k, now) => AfterGet(c, k, now)
    case Put(k, p, g, started) => AfterPut(c, k, p, g, started, ttl, max)
    case EvictPrincipal(pid) => AfterEvict(c, pid)
    case Clear => AfterClear(c)
  }

  function Run(c: Cache, ops: seq<Op>, ttl: real, max: nat): (r: Cache)
    decreases |ops|
  {
    if ops == [] then c else Run(Step(c, ops[0], ttl, max), ops[1..], ttl, max)
  }

  lemma GetKeepsInv(c: Cache, k: Key, now: real, max: nat)
    requires Inv(c, max)
    ensures Inv(AfterGet(c, k, now), max)
  {
    if k in c.entries {
      assert k in Keys(c.order);
      DropShrinks(c.order, k);
    }
  }

  lemma PutKeepsInv(c: Cache, k: Key, p: Principal, generation: nat, started: real, ttl: real, max: nat)
    requires Inv(c, max)
    ensures Inv(AfterPut(c, k, p, generation, started, ttl, max), max)
  {
    var entries := c.entries[k := Entry(started + ttl, p)];
    var order := Trim(Touch(c.order, k), max);
    assert forall x :: x in c.entries <==> x in Keys(c.order);
    assert Keys(order) == Within(entries, order).Keys;
  }

  /** A put writes its own entry, if accepted, and otherwise only drops entries. */
  lemma PutEffect(c: Cache, x: Key, p: Principal, generation: nat, started: real, ttl: real, max: nat, k: Key)
    requires k in AfterPut(c, x, p, generation, started, ttl, max).entries
    ensures var e := AfterPut(c, x, p, generation, started, ttl, max).entries[k];
            || (k == x && Accepts(c, p.id, generation) && e == Entry(started + ttl, p))
            || (k in c.entries && e == c.entries[k])
  {
  }

  /**
   A put whose snapshot is as recent as the last clear and the principal's last eviction is there afterwards, any
   other changes nothing, and no entry of another key is changed or new.
   */
  ghost predicate Wrote(c: Cache, c': Cache, k: Key, p: Principal, generation: nat, started: real, ttl: real, max: nat) {
    var accepted := c.clearedAt <= generation && (p.id in c.evictedAt ==> c.evictedAt[p.id] <= generation);
    && (!accepted ==> c' == c)
    && (accepted && max > 0 ==> k in c'.entries && c'.entries[k] == Entry(started + ttl, p))
    && (forall x :: x in c'.entries && x != k ==> x in c.entries && c'.entries[x] == c.entries[x])
    && c'.seqNo == c.seqNo && c'.clearedAt == c.clearedAt && c'.evictedAt == c.evictedAt
  }

  lemma PutWrites(c: Cache, k: Key, p: Principal, generation: nat, started: real, ttl: real, max: nat)
    ensures Wrote(c, AfterPut(c, k, p, generation, started, ttl, max), k, p, generation, started, ttl, max)
  {
    if max > 0 { TouchedStays(c.order, k, max); }
    var c' := AfterPut(c, k, p, generation, started, ttl, max);
    forall x | x in c'.entries && x != k ensures x in c.entries && c'.entries[x] == c.entries[x] {
      PutEffect(c, k, p, generation, started, ttl, max, x);
    }
  }

  lemma EvictKeepsInv(c: Cache, pid: string, max: nat)
    requires Inv(c, max)
    ensures Inv(AfterEvict(c, pid), max)
  {
    assert forall x :: x in c.entries <==> x in Keys(c.order);
  }

  lemma StepKeepsInv(c: Cache, op: Op, ttl: real, max: nat)
    requires Inv(c, max)
    ensures Inv(Step(c, op, ttl, max), max)
  {
    match op
    case Get(k, now) => GetKeepsInv(c, k, now, max);
    case Put(k, p, g, started) => PutKeepsInv(c, k, p, g, started, ttl, max);
    case EvictPrincipal(pid) => EvictKeepsInv(c, pid, max);
    case Clear =>
  }

  /** Every history from the empty cache keeps size, order and stamps consistent. */
  lemma {:induction false} RunKeepsInv(c: Cache, ops: seq<Op>, ttl: real, max: nat)
    requires Inv(c, max)
    ensures Inv(Run(c, ops, ttl, max), max)
    decreases |ops|
  {
    if ops != [] {
      StepKeepsInv(c, ops[0], ttl, max);
      RunKeepsInv(Step(c, ops[0], ttl, max), ops[1..], ttl, max);
    }
  }

  /** Neither a clear nor an eviction of this very principal. */
  predicate Spares(op: Op, pid: string) {
    !op.Clear? && op != EvictPrincipal(pid)
  }

  lemma {:induction false} StampsOnlyGrow(c: Cache, ops: seq<Op>, pid: string, generation: nat, ttl: real, max: nat)
    requires Inv(c, max) && generation <= c.seqNo && !Accepts(c, pid, generation)
    ensures !Accepts(Run(c, ops, ttl, max), pid, generation)
    decreases |ops|
  {
    if ops != [] {
      StepKeepsInv(c, ops[0], ttl, max);
      StampsOnlyGrow(Step(c, ops[0], ttl, max), ops[1..], pid, generation, ttl, max);
    }
  }

  lemma {:induction false} AcceptedIffSparedFrom(c: Cache, ops: seq<Op>, pid: string, generation: nat, ttl: real, max: nat)
    requires Inv(c, max) && generation <= c.seqNo && Accepts(c, pid, generation)
    ensures Accepts(Run(c, ops, ttl, max), pid, generation) <==> forall op :: op in ops ==> Spares(op, pid)
    decreases |ops|
  {
    if ops != [] {
      var next := Step(c, ops[0], ttl, max);
      StepKeepsInv(c, ops[0], ttl, max);
      assert ops == [ops[0]] + ops[1..];
      if Spares(ops[0], pid) {
        AcceptedIffSparedFrom(next, ops[1..], pid, generation, ttl, max);
      } else {
        StampsOnlyGrow(next, ops[1..], pid, generation, ttl, max);
      }
    }
  }

  /**
   A put is accepted if and only if, since its begin snapshot, the cache was not cleared
   and its own principal was not evicted. Evictions of other principals never block it.
   */
  lemma PutAcceptedIff(c: Cache, ops: seq<Op>, pid: string, ttl: real, max: nat)
    requires Inv(c, max)
    ensures Accepts(Run(c, ops, ttl, max), pid, c.seqNo) <==> forall op :: op in ops ==> Spares(op, pid)
  {
    AcceptedIffSparedFrom(c, ops, pid, c.seqNo, ttl, max);
  }

  /** An eviction takes every entry of its principal and no entry of anyone else. */
  lemma EvictIsScoped(c: Cache, pid: string, k: Key, max: nat)
    requires Inv(c, max)
    ensures k in AfterEvict(c, pid).entries <==> k in c.entries && c.entries[k].principal.id != pid
    ensures k in AfterEvict(c, pid).entries ==> AfterEvict(c, pid).entries[k] == c.entries[k]
    ensures k in c.entries && c.entries[k].principal.id != pid ==>
              Newer(AfterEvict(c, pid).order, k)
              == Drop(Newer(c.order, k), c.entries.Keys - AfterEvict(c, pid).entries.Keys)
  {
    var gone := set x | x in c.entries && c.entries[x].principal.id == pid;
    if k in c.entries && k !in gone {
      assert k in Keys(c.order);
      NewerAfterDrop(c.order, gone, k);
      assert c.entries.Keys - AfterEvict(c, pid).entries.Keys == gone;
    }
  }

  // ---------------------------------------------------------------------
  // How long an entry stays
  // ---------------------------------------------------------------------

  /** The op neither evicts, clears, expires nor rewrites the entry `e` of `k`; it may hit it. */
  predicate LeavesAlone(op: Op, k: Key, e: Entry) {
    && Spares(op, e.principal.id)
    && (op.Get? && op.key == k ==> op.now < e.expiresAt)
    && (op.Put? ==> op.key != k)
  }

  /** Keys a history may have moved ahead of others. */
  function Touched(ops: seq<Op>): (r: set<Key>) {
    set i | 0 <= i < |ops| && (ops[i].Get? || ops[i].Put?) :: ops[i].key
  }

  lemma SubsetSize(a: set<Key>, b: set<Key>)
    requires a <= b
    ensures |a| <= |b|
  {
    assert b == a + (b - a);
  }

  lemma TouchedSplit(ops: seq<Op>)
    requires ops != []
    ensures Touched([ops[0]]) + Touched(ops[1..]) <= Touched(ops)
  {
    forall x | x in Touched([ops[0]]) ensures x in Touched(ops) { assert ops[0].key == x; }
    forall x | x in Touched(ops[1..]) ensures x in Touched(ops) {
      var i :| 0 <= i < |ops[1..]| && (ops[1..][i].Get? || ops[1..][i].Put?) && ops[1..][i].key == x;
      assert ops[i + 1] == ops[1..][i];
    }
  }

  // Exactly when it stays, told by the keys that moved ahead of it.

  /** The key an operation makes the most recent, if any: a hit, or a put that is accepted. */
  function Moved(c: Cache, op: Op): set<Key> {
    match op
    case Get(x, now) => if Lookup(c, x, now).Some? then {x} else {}
    case Put(x, p, g, _) => if Accepts(c, p.id, g) then {x} else {}
    case EvictPrincipal(_) => {}
    case Clear => {}
  }

  /** The keys ahead of `k` after an operation: those that moved since `k` last did and are still cached. */
  function NextAhead(c: Cache, op: Op, k: Key, ahead: set<Key>, ttl: real, max: nat): set<Key> {
    if k in Moved(c, op) then {} else (ahead + Moved(c, op)) * Step(c, op, ttl, max).entries.Keys
  }

  /**
   The operation ends the entry of `k`: a clear, its eviction, its expiry, a put that replaces it by
   another, or a put of another key that brings the keys ahead of it to the maximum.
   */
  predicate Ends(c: Cache, op: Op, k: Key, ahead: set<Key>, ttl: real, max: nat)
    requires k in c.entries
  {
    match op
    case Get(x, now) => x == k && now >= c.entries[k].expiresAt
    case Put(x, p, g, started) =>
      Accepts(c, p.id, g) && if x == k then Entry(started + ttl, p) != c.entries[k] else |ahead + {x}| >= max
    case EvictPrincipal(pid) => pid == c.entries[k].principal.id
    case Clear => true
  }

  /** An accepted put keeps the keys the bounded touch keeps, with their entries but for the one written. */
  lemma PutKeepsKeys(c: Cache, op: Op, k: Key, ttl: real, max: nat)
    requires k in c.entries && op.Put? && Accepts(c, op.principal.id, op.generation)
    ensures var next := Step(c, op, ttl, max);
            && next.order == Trim(Touch(c.order, op.key), max)
            && (k in next.entries <==> k in next.order)
            && (k in next.entries ==>
                  next.entries[k] == if op.key == k then Entry(op.started + ttl, op.principal) else c.entries[k])
  {
  }

  lemma InOrder(c: Cache, k: Key, max: nat)
    requires Inv(c, max)
    ensures k in c.entries <==> k in c.order
  {
    assert k in c.entries <==> k in Keys(c.order);
  }

  lemma OwnPutEndsIff(c: Cache, op: Op, k: Key, ahead: set<Key>, ttl: real, max: nat)
    requires k in c.entries && op.Put? && op.key == k && Accepts(c, op.principal.id, op.generation) && max >= 1
    ensures var next := Step(c, op, ttl, max);
            (k in next.entries && next.entries[k] == c.entries[k]) <==> !Ends(c, op, k, ahead, ttl, max)
  {
    PutKeepsKeys(c, op, k, ttl, max);
    TouchedStays(c.order, k, max);
  }

  lemma OtherPutEndsIff(c: Cache, op: Op, k: Key, ahead: set<Key>, ttl: real, max: nat)
    requires k in c.entries && op.Put? && op.key != k && Accepts(c, op.principal.id, op.generation)
    requires Distinct(c.order) && k in c.order && ahead == Keys(Newer(c.order, k))
    ensures var next := Step(c, op, ttl, max);
            (k in next.entries && next.entries[k] == c.entries[k]) <==> !Ends(c, op, k, ahead, ttl, max)
  {
    PutKeepsKeys(c, op, k, ttl, max);
    BoundedTouch(c.order, op.key, k, max);
  }

  /** One operation keeps the entry as it is if and only if it does not end it. */
  lemma EndsIff(c: Cache, op: Op, k: Key, ttl: real, max: nat)
    requires Inv(c, max) && k in c.entries
    ensures (k in Step(c, op, ttl, max).entries && Step(c, op, ttl, max).entries[k] == c.entries[k])
            <==> !Ends(c, op, k, Keys(Newer(c.order, k)), ttl, max)
  {
    InOrder(c, k, max);
    if op.Put? && Accepts(c, op.principal.id, op.generation) {
      if op.key == k {
        OwnPutEndsIff(c, op, k, Keys(Newer(c.order, k)), ttl, max);
      } else {
        OtherPutEndsIff(c, op, k, Keys(Newer(c.order, k)), ttl, max);
      }
    }
  }

  lemma PutAhead(c: Cache, op: Op, k: Key, ttl: real, max: nat)
    requires Distinct(c.order) && k in c.order && k in c.entries
    requires op.Put? && Accepts(c, op.principal.id, op.generation) && k in Trim(Touch(c.order, op.key), max)
    ensures Keys(Newer(Step(c, op, ttl, max).order, k)) == if op.key == k then {} else Keys(Newer(c.order, k)) + {op.key}
  {
    PutKeepsKeys(c, op, k, ttl, max);
    if op.key == k {
      NewerAfterOwnTouch(c.order, k);
      TrimKeeps(Touch(c.order, k), max, k);
    } else {
      BoundedTouch(c.order, op.key, k, max);
    }
  }

  lemma EvictAhead(c: Cache, pid: string, k: Key, max: nat)
    requires Inv(c, max) && k in c.entries && k in AfterEvict(c, pid).entries
    ensures Keys(Newer(AfterEvict(c, pid).order, k)) == Keys(Newer(c.order, k)) * AfterEvict(c, pid).entries.Keys
  {
    InOrder(c, k, max);
    var gone := set x | x in c.entries && c.entries[x].principal.id == pid;
    NewerAfterDrop(c.order, gone, k);
    forall x | x in Keys(Newer(c.order, k)) ensures x in c.entries { InOrder(c, x, max); }
  }

  /** The keys ahead of a key that stays. */
  lemma AheadStep(c: Cache, op: Op, k: Key, ttl: real, max: nat)
    requires Inv(c, max) && k in c.entries && k in Step(c, op, ttl, max).entries
    ensures Keys(Newer(Step(c, op, ttl, max).order, k)) == NextAhead(c, op, k, Keys(Newer(c.order, k)), ttl, max)
  {
    AheadAreCached(c, k, max);
    assert Inv(Step(c, op, ttl, max), max) by { StepKeepsInv(c, op, ttl, max); }
    AheadAreCached(Step(c, op, ttl, max), k, max);
    match op
    case Get(x, now) => GetAhead(c, x, now, k, max);
    case Put(_, _, _, _) =>
      if Accepts(c, op.principal.id, op.generation) {
        InOrder(c, k, max);
        PutKeepsKeys(c, op, k, ttl, max);
        PutAhead(c, op, k, ttl, max);
      }
    case EvictPrincipal(pid) => EvictAhead(c, pid, k, max);
    case Clear =>
  }

  lemma AheadAreCached(c: Cache, k: Key, max: nat)
    requires Inv(c, max)
    ensures Keys(Newer(c.order, k)) <= c.entries.Keys
  {
    forall x | x in Keys(Newer(c.order, k)) ensures x in c.entries { InOrder(c, x, max); }
  }

  lemma GetAhead(c: Cache, x: Key, now: real, k: Key, max: nat)
    requires Inv(c, max) && k in c.entries && k in AfterGet(c, x, now).entries
    ensures var ahead := Keys(Newer(c.order, k));
            Keys(Newer(AfterGet(c, x, now).order, k))
            == if Lookup(c, x, now).None? then ahead - {x} else if x == k then {} else ahead + {x}
  {
    InOrder(c, k, max);
    if Lookup(c, x, now).None? {
      AheadAreCached(c, k, max);
      if x in c.entries { DropAhead(c.order, x, k); }
    } else if x == k {
      NewerAfterOwnTouch(c.order, k);
    } else {
      TouchAhead(c.order, x, k);
    }
  }

  /** The entry `e` of `k` is there, unchanged, before and after every one of the operations. */
  ghost predicate Lasts(c: Cache, ops: seq<Op>, k: Key, e: Entry, ttl: real, max: nat)
    decreases |ops|
  {
    && k in c.entries && c.entries[k] == e
    && (ops == [] || Lasts(Step(c, ops[0], ttl, max), ops[1..], k, e, ttl, max))
  }

  /** Some operation ends the entry of `k`, the keys ahead of it being `ahead` at first. */
  predicate Ended(c: Cache, ops: seq<Op>, k: Key, ahead: set<Key>, ttl: real, max: nat)
    decreases |ops|
  {
    k in c.entries && ops != [] &&
    (|| Ends(c, ops[0], k, ahead, ttl, max)
     || Ended(Step(c, ops[0], ttl, max), ops[1..], k, NextAhead(c, ops[0], k, ahead, ttl, max), ttl, max))
  }

  /**
   Over every history an entry lasts if and only if it is never cleared, evicted, expired or replaced and
   no put comes while the other keys that moved since its own last hit and are still cached, with the
   one put, number the maximum.
   */
  lemma {:induction false} LastsIff(c: Cache, ops: seq<Op>, k: Key, ttl: real, max: nat)
    requires Inv(c, max) && k in c.entries
    ensures Lasts(c, ops, k, c.entries[k], ttl, max) <==> !Ended(c, ops, k, Keys(Newer(c.order, k)), ttl, max)
    decreases |ops|
  {
    if ops != [] {
      var next := Step(c, ops[0], ttl, max);
      EndsIff(c, ops[0], k, ttl, max);
      StepKeepsInv(c, ops[0], ttl, max);
      if k in next.entries && next.entries[k] == c.entries[k] {
        AheadStep(c, ops[0], k, ttl, max);
        LastsIff(next, ops[1..], k, ttl, max);
      }
    }
  }

  lemma TouchedOne(op: Op)
    ensures Touched([op]) == if op.Get? || op.Put? then {op.key} else {}
  {
    assert op.Get? || op.Put? ==> [op][0].key in Touched([op]);
  }

  lemma NotEnded(c: Cache, op: Op, k: Key, ahead: set<Key>, ttl: real, max: nat)
    requires k in c.entries && LeavesAlone(op, k, c.entries[k])
    requires |ahead + (Touched([op]) - {k})| < max
    ensures !Ends(c, op, k, ahead, ttl, max)
  {
    TouchedOne(op);
    if op.Put? { assert Touched([op]) - {k} == {op.key}; }
  }

  /** Only touched keys get ahead. */
  lemma NextAheadWithin(c: Cache, op: Op, k: Key, ahead: set<Key>, ttl: real, max: nat)
    ensures NextAhead(c, op, k, ahead, ttl, max) <= ahead + (Touched([op]) - {k})
  {
    TouchedOne(op);
    assert Moved(c, op) <= Touched([op]);
  }

  lemma SurvivesStep(c: Cache, op: Op, k: Key, ttl: real, max: nat)
    requires Inv(c, max) && k in c.entries
    requires LeavesAlone(op, k, c.entries[k])
    requires |Keys(Newer(c.order, k)) + (Touched([op]) - {k})| < max
    ensures k in Step(c, op, ttl, max).entries
    ensures Step(c, op, ttl, max).entries[k] == c.entries[k]
    ensures Keys(Newer(Step(c, op, ttl, max).order, k)) <= Keys(Newer(c.order, k)) + (Touched([op]) - {k})
  {
    var ahead := Keys(Newer(c.order, k));
    NotEnded(c, op, k, ahead, ttl, max);
    EndsIff(c, op, k, ttl, max);
    AheadStep(c, op, k, ttl, max);
    NextAheadWithin(c, op, k, ahead, ttl, max);
  }

  /**
   An entry stays, unchanged, as long as the keys more recent than it together with the
   other keys touched since number fewer than the maximum, and nothing evicts, clears,
   expires or rewrites it. Directly after its own touch nothing is more recent.
   */
  lemma {:induction false} Survives(c: Cache, ops: seq<Op>, k: Key, ttl: real, max: nat)
    requires Inv(c, max) && k in c.entries
    requires forall op :: op in ops ==> LeavesAlone(op, k, c.entries[k])
    requires |Keys(Newer(c.order, k)) + (Touched(ops) - {k})| < max
    ensures k in Run(c, ops, ttl, max).entries
    ensures Run(c, ops, ttl, max).entries[k] == c.entries[k]
    decreases |ops|
  {
    if ops != [] {
      TouchedSplit(ops);
      var all := Keys(Newer(c.order, k)) + (Touched(ops) - {k});
      SubsetSize(Keys(Newer(c.order, k)) + (Touched([ops[0]]) - {k}), all);
      SurvivesStep(c, ops[0], k, ttl, max);
      StepKeepsInv(c, ops[0], ttl, max);
      var next := Step(c, ops[0], ttl, max);
      SubsetSize(Keys(Newer(next.order, k)) + (Touched(ops[1..]) - {k}), all);
      Survives(next, ops[1..], k, ttl, max);
    }
  }

  /** The only ways an entry can go: clear, eviction, expiry, or being the oldest of a full cache. */
  lemma LostOnlyBy(c: Cache, op: Op, k: Key, ttl: real, max: nat)
    requires Inv(c, max) && k in c.entries
    ensures k !in Step(c, op, ttl, max).entries <==>
              || op.Clear?
              || op == EvictPrincipal(c.entries[k].principal.id)
              || (op.Get? && op.key == k && op.now >= c.entries[k].expiresAt)
              || (op.Put? && Accepts(c, op.principal.id, op.generation) && op.key !in c.entries
                  && |c.order| == max && c.order[0] == k)
  {
    if op.Put? { LostByPut(c, op, k, ttl, max); }
  }

  lemma LostByPut(c: Cache, op: Op, k: Key, ttl: real, max: nat)
    requires Inv(c, max) && k in c.entries && op.Put?
    ensures k !in Step(c, op, ttl, max).entries <==>
              && Accepts(c, op.principal.id, op.generation) && op.key !in c.entries
              && |c.order| == max && c.order[0] == k
  {
    InOrder(c, k, max);
    InOrder(c, op.key, max);
    if Accepts(c, op.principal.id, op.generation) {
      PutKeepsKeys(c, op, k, ttl, max);
      if op.key == k {
        TouchedStays(c.order, k, max);
      } else {
        BoundedTouch(c.order, op.key, k, max);
        OldestOfFull(c.order, op.key, k, max);
      }
    }
  }

  // ---------------------------------------------------------------------
  // The imperative cache
  // ---------------------------------------------------------------------

  lemma DropOneMore(order: seq<Key>, stale: seq<Key>, j: nat)
    requires j < |stale|
    ensures Keys(stale[..j + 1]) == Keys(stale[..j]) + {stale[j]}
    ensures Drop(Drop(order, Keys(stale[..j])), {stale[j]}) == Drop(order, Keys(stale[..j + 1]))
  {
    assert Keys(stale[..j + 1]) == Keys(stale[..j]) + {stale[j]};
    DropTwice(order, Keys(stale[..j]), {stale[j]});
  }

  /** Deleting the principal's keys, wherever they stand in `stale`, is its eviction. */
  lemma StaleEvicts(c: Cache, pid: string, stale: seq<Key>)
    requires forall x :: x in stale <==> x in c.entries && c.entries[x].principal.id == pid
    ensures AfterEvict(c, pid)
            == Cache(Drop(c.order, Keys(stale)), c.entries - Keys(stale), c.seqNo + 1, c.clearedAt,
                     c.evictedAt[pid := c.seqNo + 1])
  {
    assert Keys(stale) == set x | x in c.entries && c.entries[x].principal.id == pid;
  }

  class ResolvedTokenCache {
    const ttl: real
    const maxEntries: nat
    var order: seq<Key>
    var entries: map<Key, Entry>
    var seqNo: nat
    var clearedAt: nat
    var evictedAt: map<string, nat>

    ghost function State(): Cache
      reads this
    {
      Cache(order, entries, seqNo, clearedAt, evictedAt)
    }

    ghost predicate Valid()
      reads this
    {
      Inv(State(), maxEntries)
    }

    constructor (ttl: real, maxEntries: nat)
      ensures this.ttl == ttl && this.maxEntries == maxEntries
      ensures State() == EMPTY && Valid()
    {
      this.ttl, this.maxEntries := ttl, maxEntries;
      order, entries := [], map[];
      seqNo, clearedAt, evictedAt := 0, 0, map[];
    }

    /** Snapshot taken before a resolve's database reads. */
    method Begin(now: real) returns (generation: nat, readAt: real)
      ensures generation == seqNo && readAt == now
    {
      return seqNo, now;
    }

    method Get(k: Key, now: real) returns (r: Option<Principal>)
      requires Valid()
      modifies this
      ensures Valid()
      ensures r == Lookup(old(State()), k, now)
      ensures State() == AfterGet(old(State()), k, now)
      ensures r.Some? <==> k in old(entries) && now < old(entries)[k].expiresAt
      ensures r.Some? ==>
                && r.value == old(entries)[k].principal && entries == old(entries)
                && order != [] && order[|order| - 1] == k
      ensures r.None? ==> entries == old(entries) - {k}
      ensures unchanged(`seqNo, `clearedAt, `evictedAt)
    {
      GetKeepsInv(State(), k, now, maxEntries);
      if k !in entries { return None; }
      var entry := entries[k];
      if now >= entry.expiresAt {
        entries := entries - {k};
        order := Drop(order, {k});
        return None;
      }
      order := Drop(order, {k}) + [k];
      return Some(entry.principal);
    }

    method Put(k: Key, p: Principal, generation: nat, readAt: Option<real>, now: real)
      requires Valid()
      modifies this
      ensures Valid()
      ensures State() == AfterPut(old(State()), k, p, generation, if readAt.Some? then readAt.value else now,
                                  ttl, maxEntries)
      ensures Wrote(old(State()), State(), k, p, generation, if readAt.Some? then readAt.value else now, ttl, maxEntries)
    {
      ghost var before := State();
      if clearedAt > generation { return; }
      if p.id in evictedAt && evictedAt[p.id] > generation { return; }
      var started := if readAt.None? then now else readAt.value;
      Store(k, Entry(started + ttl, p));
      assert State() == AfterPut(before, k, p, generation, started, ttl, maxEntries);
      assert Valid() by { PutKeepsInv(before, k, p, generation, started, ttl, maxEntries); }
      PutWrites(before, k, p, generation, started, ttl, maxEntries);
    }

    /** Write the entry, move its key to the end, pop the oldest while over the maximum. */
    method Store(k: Key, e: Entry)
      requires Keys(order) == entries.Keys && Distinct(order)
      modifies this`order, this`entries
      ensures order == Trim(Touch(old(order), k), maxEntries)
      ensures entries == Within(old(entries)[k := e], order)
    {
      assert forall x :: x in entries <==> x in Keys(order);
      entries := entries[k := e];
      order := Drop(order, {k}) + [k];
      PopOldest();
    }

    /** The `popitem(last=False)` loop. */
    method PopOldest()
      requires Distinct(order)
      requires forall x :: x in entries ==> x in order
      modifies this`order, this`entries
      ensures order == Trim(old(order), maxEntries)
      ensures entries == Within(old(entries), order)
    {
      assert entries == Within(old(entries), order);
      while |order| > maxEntries
        invariant |order| <= |old(order)| && order == old(order)[|old(order)| - |order|..]
        invariant |order| < |old(order)| ==> |order| >= maxEntries
        invariant entries == Within(old(entries), order)
        decreases |order|
      {
        WithinTail(old(entries), order);
        entries := entries - {order[0]};
        order := order[1..];
      }
    }

    /** The keys an eviction of `pid` deletes, in cache order. */
    method StaleKeys(pid: string) returns (stale: seq<Key>)
      requires Valid()
      ensures forall x :: x in stale <==> x in entries && entries[x].principal.id == pid
    {
      assert forall x :: x in entries <==> x in Keys(order);
      stale := [];
      for i := 0 to |order|
        invariant forall x :: x in stale <==> x in order[..i] && entries[x].principal.id == pid
      {
        assert order[..i + 1] == order[..i] + [order[i]];
        if entries[order[i]].principal.id == pid {
          stale := stale + [order[i]];
        }
      }
      assert order[..|order|] == order;
    }

    method EvictPrincipal(pid: string)
      requires Valid()
      modifies this
      ensures Valid()
      ensures State() == AfterEvict(old(State()), pid)
      ensures forall k :: k in entries <==> k in old(entries) && old(entries)[k].principal.id != pid
      ensures forall k :: k in entries ==> entries[k] == old(entries)[k]
      ensures seqNo == old(seqNo) + 1 && evictedAt == old(evictedAt)[pid := seqNo] && clearedAt == old(clearedAt)
    {
      ghost var before := State();
      EvictKeepsInv(before, pid, maxEntries);
      var stale := StaleKeys(pid);
      StaleEvicts(before, pid, stale);
      seqNo := seqNo + 1;
      evictedAt := evictedAt[pid := seqNo];
      DeleteAll(stale);
    }

    /** `for key in stale: del self._entries[key]`. */
    method DeleteAll(stale: seq<Key>)
      modifies this`order, this`entries
      ensures order == Drop(old(order), Keys(stale))
      ensures entries == old(entries) - Keys(stale)
    {
      DropNothing(order, Keys(stale[..0]));
      for j := 0 to |stale|
        invariant order == Drop(old(order), Keys(stale[..j]))
        invariant entries == old(entries) - Keys(stale[..j])
      {
        DropOneMore(old(order), stale, j);
        entries := entries - {stale[j]};
        order := Drop(order, {stale[j]});
      }
      assert stale[..|stale|] == stale;
    }

    method Clear()
      requires Valid()
      modifies this
      ensures Valid()
      ensures State() == AfterClear(old(State()))
      ensures entries == map[] && seqNo == old(seqNo) + 1 && clearedAt == seqNo && evictedAt == old(evictedAt)
    {
      entries, order := map[], [];
      seqNo := seqNo + 1;
      clearedAt := seqNo;
    }
  }
}
