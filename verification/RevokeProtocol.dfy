/**
 Resolvers racing revokers over the shared cache. Every lock acquisition and every SQL
 statement is one atomic step, any number of resolvers and revokers may be in flight, and
 a revoker evicts even when its write raised.

 A token row is named by the digest of its plaintext, which is also its cache key: digests
 are injective and no two tokens share a plaintext, so ids and digests are one to one.
 `cut` is the `revoked_at` column of both tables, with two history fields: the cache
 sequence number when the column was set and the in-process revoker that set it, if any.
 `done` is the history of resolves that reached their put, `past` that of users rows since
 replaced, each with the time it was.
 */
module RevokeProtocol {
  import opened Base
  import opened Recency
  import TC = TokenCache
  import opened Accounts

  datatype TokenRow = TokenRow(kind: TC.Kind, owner: string)

  datatype Target = TokenOf(key: Key) | AgentOf(agent: string)

  datatype Cut = Cut(seqNo: nat, at: real, author: Option<nat>)

  datatype Resolver =
    | Begun(key: Key, generation: nat, readAt: real)
    | HasToken(key: Key, generation: nat, readAt: real)
    | HasPrincipal(key: Key, generation: nat, readAt: real, principal: TC.Principal)

  /** `hit`: the row was the caller's, so the write left it revoked. */
  datatype Revoker =
    | Writing(target: Target, pid: string)
    | Evicting(target: Target, pid: string, hit: bool)
    | Returned(target: Target, pid: string, hit: bool)

  datatype Resolved = Resolved(key: Key, principal: TC.Principal, begun: real)

  datatype PastUser = PastUser(pid: string, row: UserRow, until: real)

  datatype World = World(
    ttl: real, max: nat, now: real,
    tokens: map<Key, TokenRow>, users: map<string, UserRow>, agents: map<string, AgentInfo>,
    cut: map<Target, Cut>,
    cache: TC.Cache,
    resolvers: map<nat, Resolver>, revokers: map<nat, Revoker>,
    done: set<Resolved>, past: set<PastUser>)

  datatype Step =
    | Tick(elapsed: real)
    | Get(key: Key)
    | Begin(r: nat, key: Key)
    | ReadToken(r: nat)
    | ReadPrincipal(r: nat)
    | NoPrincipal(r: nat)
    | GiveUp(r: nat)
    | Put(r: nat)
    | StartRevoke(v: nat, target: Target, pid: string)
    | Write(v: nat, visible: bool)
    | Evict(v: nat)
    | InvalidateAll
    | Mint(key: Key, row: TokenRow)
    | PutUser(pid: string, user: UserRow)
    | AddAgent(pid: string, agent: AgentInfo)
    | WriteFromOutside(target: Target)

  predicate Exists(w: World, t: Target) {
    match t
    case TokenOf(k) => k in w.tokens
    case AgentOf(a) => a in w.agents
  }

  /** The principal whose entries a revoke of `t` evicts. */
  function PidOf(w: World, t: Target): string
    requires Exists(w, t)
  {
    match t
    case TokenOf(k) => w.tokens[k].owner
    case AgentOf(a) => a
  }

  /** Revoking `t` must stop the token `k` from resolving. */
  predicate Stops(w: World, t: Target, k: Key)
    requires k in w.tokens
  {
    t == TokenOf(k) || (w.tokens[k].kind.Agent? && t == AgentOf(w.tokens[k].owner))
  }

  /** The SELECT on users or agents in `_build_principal_and_touch`. */
  function PrincipalFor(w: World, k: Key): Option<TC.Principal>
    requires k in w.tokens
  {
    var row := w.tokens[k];
    match row.kind
    case User =>
      if row.owner in w.users then Some(UserPrincipal(row.owner, w.users[row.owner])) else None
    case Agent =>
      if row.owner in w.agents && AgentOf(row.owner) !in w.cut
      then Some(AgentPrincipal(row.owner, w.agents[row.owner])) else None
  }

  predicate Enabled(w: World, s: Step) {
    match s
    case Tick(d) => 0.0 <= d
    case Get(k) => true
    case Begin(r, k) => r !in w.resolvers
    case ReadToken(r) =>
      r in w.resolvers && w.resolvers[r].Begun? && w.resolvers[r].key in w.tokens
      && TokenOf(w.resolvers[r].key) !in w.cut
    case ReadPrincipal(r) =>
      r in w.resolvers && w.resolvers[r].HasToken? && w.resolvers[r].key in w.tokens
      && PrincipalFor(w, w.resolvers[r].key).Some?
    case NoPrincipal(r) =>
      r in w.resolvers && w.resolvers[r].HasToken? && w.resolvers[r].key in w.tokens
      && PrincipalFor(w, w.resolvers[r].key).None?
    case GiveUp(r) => r in w.resolvers && w.resolvers[r].Begun?
    case Put(r) => r in w.resolvers && w.resolvers[r].HasPrincipal?
    case StartRevoke(v, t, pid) => v !in w.revokers
    case Write(v, visible) => v in w.revokers && w.revokers[v].Writing?
    case Evict(v) => v in w.revokers && w.revokers[v].Evicting?
    case InvalidateAll => true
    case Mint(k, row) => k !in w.tokens
    case PutUser(pid, row) => true
    case AddAgent(pid, info) => pid !in w.agents
    case WriteFromOutside(t) => Exists(w, t)
  }

  /** `UPDATE ... SET revoked_at = now WHERE ... AND revoked_at IS NULL`. */
  function Cutting(w: World, t: Target, author: Option<nat>): map<Target, Cut> {
    if t in w.cut then w.cut else w.cut[t := Cut(w.cache.seqNo, w.now, author)]
  }

  function Do(w: World, s: Step): (r: World)
    requires Enabled(w, s)
  {
    match s
    case Tick(d) => w.(now := w.now + d)
    case Get(k) => w.(cache := TC.AfterGet(w.cache, k, w.now))
    case Begin(r, k) => w.(resolvers := w.resolvers[r := Begun(k, w.cache.seqNo, w.now)])
    case ReadToken(r) =>
      var x := w.resolvers[r];
      w.(resolvers := w.resolvers[r := HasToken(x.key, x.generation, x.readAt)])
    case ReadPrincipal(r) =>
      var x := w.resolvers[r];
      w.(resolvers := w.resolvers[r := HasPrincipal(x.key, x.generation, x.readAt, PrincipalFor(w, x.key).value)])
    case NoPrincipal(r) =>
      var x := w.resolvers[r];
      w.(resolvers := w.resolvers[r := Begun(x.key, x.generation, x.readAt)])
    case GiveUp(r) => w.(resolvers := w.resolvers - {r})
    case Put(r) =>
      var x := w.resolvers[r];
      w.(cache := TC.AfterPut(w.cache, x.key, x.principal, x.generation, x.readAt, w.ttl, w.max),
         resolvers := w.resolvers - {r},
         done := w.done + {Resolved(x.key, x.principal, x.readAt)})
    case StartRevoke(v, t, pid) => w.(revokers := w.revokers[v := Writing(t, pid)])
    case Write(v, visible) =>
      var x := w.revokers[v];
      var hit := visible && Exists(w, x.target) && PidOf(w, x.target) == x.pid;
      w.(cut := if hit then Cutting(w, x.target, Some(v)) else w.cut,
         revokers := w.revokers[v := Evicting(x.target, x.pid, hit)])
    case Evict(v) =>
      var x := w.revokers[v];
      w.(cache := TC.AfterEvict(w.cache, x.pid),
         revokers := w.revokers[v := Returned(x.target, x.pid, x.hit)])
    case InvalidateAll => w.(cache := TC.AfterClear(w.cache))
    case Mint(k, row) => w.(tokens := w.tokens[k := row])
    case PutUser(pid, row) =>
      w.(users := w.users[pid := row],
         past := if pid in w.users then w.past + {PastUser(pid, w.users[pid], w.now)} else w.past)
    case AddAgent(pid, info) => w.(agents := w.agents[pid := info])
    case WriteFromOutside(t) => w.(cut := Cutting(w, t, None))
  }

  predicate AllEnabled(w: World, steps: seq<Step>)
    decreases |steps|
  {
    steps == [] || (Enabled(w, steps[0]) && AllEnabled(Do(w, steps[0]), steps[1..]))
  }

  function Run(w: World, steps: seq<Step>): (r: World)
    requires AllEnabled(w, steps)
    decreases |steps|
  {
    if steps == [] then w else Run(Do(w, steps[0]), steps[1..])
  }

  /** A process that has just started: any tables, nothing cached, nobody in flight. */
  ghost predicate Init(w: World) {
    && w.cache == TC.EMPTY && w.resolvers == map[] && w.revokers == map[] && w.done == {}
    && forall t :: t in w.cut ==> Exists(w, t) && w.cut[t].seqNo == 0 && w.cut[t].at <= w.now && w.cut[t].author.None?
  }

  // ---------------------------------------------------------------------
  // Invariant
  // ---------------------------------------------------------------------

  /** An entry comes from a completed resolve, and outlives a revocation only until the eviction. */
  ghost predicate EntryOk(w: World, k: Key) {
    && k in w.cache.entries && k in w.tokens
    && Resolved(k, w.cache.entries[k].principal, w.cache.entries[k].expiresAt - w.ttl) in w.done
    && forall t :: t in w.cut && Stops(w, t, k) ==> TC.Stamp(w.cache, w.tokens[k].owner) <= w.cut[t].seqNo
  }

  ghost predicate ShowsUser(who: TC.Principal, row: UserRow) {
    who.displayName == row.displayName && who.isAdmin == row.isAdmin
  }

  /** The users row of `pid` was `who`'s at some time at or after `since`. */
  ghost predicate WasUser(w: World, pid: string, who: TC.Principal, since: real) {
    || (pid in w.users && ShowsUser(who, w.users[pid]))
    || exists u :: u in w.past && u.pid == pid && u.until >= since && ShowsUser(who, u.row)
  }

  /** `who` is the owner of token `k`, as the tables had it at some time at or after `since`. */
  ghost predicate IsOwner(w: World, k: Key, who: TC.Principal, since: real)
    requires k in w.tokens
  {
    var row := w.tokens[k];
    && who.id == row.owner && who.kind == row.kind
    && match row.kind
       case User => who.userId == None && WasUser(w, row.owner, who, since)
       case Agent =>
         && row.owner in w.agents && who.displayName == Some(w.agents[row.owner].displayName) && !who.isAdmin
         && who.userId == if w.agents[row.owner].ownerType == UserOwned then Some(w.agents[row.owner].ownerId) else None
  }

  /** A completed resolve built its own token's principal and began before anything cut it off. */
  ghost predicate ResolvedOk(w: World, d: Resolved) {
    && d.key in w.tokens
    && IsOwner(w, d.key, d.principal, d.begun)
    && d.begun <= w.now
    && forall t :: t in w.cut && Stops(w, t, d.key) ==> d.begun <= w.cut[t].at
  }

  /** What a resolver has read was not revoked when its snapshot was taken. */
  ghost predicate ResolverOk(w: World, x: Resolver) {
    && x.generation <= w.cache.seqNo && x.readAt <= w.now
    && (!x.Begun? ==>
          && x.key in w.tokens
          && forall t :: t in w.cut && Stops(w, t, x.key) && (t.TokenOf? || x.HasPrincipal?) ==>
               x.generation <= w.cut[t].seqNo && x.readAt <= w.cut[t].at)
    && (x.HasPrincipal? ==> IsOwner(w, x.key, x.principal, x.readAt))
  }

  /** A revoked row still names the revoker that wrote it. */
  ghost predicate CutOk(w: World, t: Target) {
    && Exists(w, t) && t in w.cut
    && w.cut[t].seqNo <= w.cache.seqNo && w.cut[t].at <= w.now
    && (w.cut[t].author.Some? ==>
          var v := w.cut[t].author.value;
          v in w.revokers && w.revokers[v].target == t && !w.revokers[v].Writing? && w.revokers[v].hit)
  }

  /** A revoker whose write took effect left its row revoked, and has evicted since once it returned. */
  ghost predicate RevokerOk(w: World, x: Revoker) {
    !x.Writing? && x.hit ==>
      && Exists(w, x.target) && PidOf(w, x.target) == x.pid && x.target in w.cut
      && (x.Returned? ==> TC.Stamp(w.cache, x.pid) > w.cut[x.target].seqNo)
  }

  ghost predicate Inv(w: World) {
    && TC.Inv(w.cache, w.max)
    && (forall k :: k in w.cache.entries ==> EntryOk(w, k))
    && (forall d :: d in w.done ==> ResolvedOk(w, d))
    && (forall r :: r in w.resolvers ==> ResolverOk(w, w.resolvers[r]))
    && (forall t :: t in w.cut ==> CutOk(w, t))
    && (forall v :: v in w.revokers ==> RevokerOk(w, w.revokers[v]))
  }

  lemma InitHoldsInv(w: World)
    requires Init(w)
    ensures Inv(w)
  {
  }

  /** Dropping entries and advancing stamps, as long as the entries left keep theirs. */
  lemma ShrinkCache(w: World, c: TC.Cache)
    requires Inv(w) && TC.Inv(c, w.max)
    requires c.seqNo >= w.cache.seqNo
    requires forall p :: TC.Stamp(w.cache, p) <= TC.Stamp(c, p)
    requires forall k :: k in c.entries ==>
               && k in w.cache.entries && c.entries[k] == w.cache.entries[k]
               && k in w.tokens && TC.Stamp(c, w.tokens[k].owner) == TC.Stamp(w.cache, w.tokens[k].owner)
    ensures Inv(w.(cache := c))
  {
    var w' := w.(cache := c);
    forall k | k in c.entries ensures EntryOk(w', k) { EntryKeptByCache(w, c, k); }
    forall d | d in w.done ensures ResolvedOk(w', d) { ResolvedKept(w, w', d); }
    forall r | r in w.resolvers ensures ResolverOk(w', w.resolvers[r]) { ResolverKeptByCache(w, c, w.resolvers[r]); }
    forall t | t in w.cut ensures CutOk(w', t) { CutKeptByCache(w, c, t); }
    forall v | v in w.revokers ensures RevokerOk(w', w.revokers[v]) { RevokerKeptByCache(w, c, w.revokers[v]); }
  }

  /** Everything a resolve depends on besides the cache. */
  ghost predicate SameTables(w: World, w': World) {
    && w'.tokens == w.tokens && w'.users == w.users && w'.agents == w.agents
    && w'.past == w.past && w'.cut == w.cut && w'.now == w.now
  }

  lemma ResolvedKept(w: World, w': World, d: Resolved)
    requires ResolvedOk(w, d) && SameTables(w, w')
    ensures ResolvedOk(w', d)
  {
    assert WasUser(w, w.tokens[d.key].owner, d.principal, d.begun) ==>
           WasUser(w', w.tokens[d.key].owner, d.principal, d.begun);
  }

  lemma ResolverKept(w: World, w': World, x: Resolver)
    requires ResolverOk(w, x) && SameTables(w, w') && w'.cache.seqNo >= w.cache.seqNo
    ensures ResolverOk(w', x)
  {
    if x.HasPrincipal? {
      assert WasUser(w, w.tokens[x.key].owner, x.principal, x.readAt) ==>
             WasUser(w', w.tokens[x.key].owner, x.principal, x.readAt);
    }
  }

  lemma EntryKeptByCache(w: World, c: TC.Cache, k: Key)
    requires EntryOk(w, k) && k in c.entries && c.entries[k] == w.cache.entries[k]
    requires TC.Stamp(c, w.tokens[k].owner) == TC.Stamp(w.cache, w.tokens[k].owner)
    ensures EntryOk(w.(cache := c), k)
  {
  }

  lemma CutKeptByCache(w: World, c: TC.Cache, t: Target)
    requires CutOk(w, t) && c.seqNo >= w.cache.seqNo
    ensures CutOk(w.(cache := c), t)
  {
  }

  lemma ResolverKeptByCache(w: World, c: TC.Cache, x: Resolver)
    requires ResolverOk(w, x) && c.seqNo >= w.cache.seqNo
    ensures ResolverOk(w.(cache := c), x)
  {
  }

  lemma RevokerKeptByCache(w: World, c: TC.Cache, x: Revoker)
    requires RevokerOk(w, x) && TC.Stamp(w.cache, x.pid) <= TC.Stamp(c, x.pid)
    ensures RevokerOk(w.(cache := c), x)
  {
  }

  lemma SetResolver(w: World, r: nat, x: Resolver)
    requires Inv(w) && ResolverOk(w, x)
    ensures Inv(w.(resolvers := w.resolvers[r := x]))
  {
    var w' := w.(resolvers := w.resolvers[r := x]);
    forall k | k in w.cache.entries ensures EntryOk(w', k) { assert EntryOk(w, k); }
    forall d | d in w.done ensures ResolvedOk(w', d) { ResolvedKept(w, w', d); }
    forall q | q in w'.resolvers ensures ResolverOk(w', w'.resolvers[q]) {
      ResolverKept(w, w', w'.resolvers[q]);
    }
    forall t | t in w.cut ensures CutOk(w', t) { assert CutOk(w, t); }
    forall v | v in w.revokers ensures RevokerOk(w', w.revokers[v]) { assert RevokerOk(w, w.revokers[v]); }
  }

  lemma DropResolver(w: World, r: nat)
    requires Inv(w)
    ensures Inv(w.(resolvers := w.resolvers - {r}))
  {
    var w' := w.(resolvers := w.resolvers - {r});
    forall k | k in w.cache.entries ensures EntryOk(w', k) { assert EntryOk(w, k); }
    forall d | d in w.done ensures ResolvedOk(w', d) { ResolvedKept(w, w', d); }
    forall q | q in w'.resolvers ensures ResolverOk(w', w'.resolvers[q]) { ResolverKept(w, w', w.resolvers[q]); }
    forall t | t in w.cut ensures CutOk(w', t) { assert CutOk(w, t); }
    forall v | v in w.revokers ensures RevokerOk(w', w.revokers[v]) { assert RevokerOk(w, w.revokers[v]); }
  }

  lemma SetRevoker(w: World, v: nat, x: Revoker)
    requires Inv(w) && RevokerOk(w, x)
    requires v in w.revokers && !w.revokers[v].Writing? && w.revokers[v].hit ==>
               !x.Writing? && x.hit && x.target == w.revokers[v].target
    ensures Inv(w.(revokers := w.revokers[v := x]))
  {
    var w' := w.(revokers := w.revokers[v := x]);
    forall k | k in w.cache.entries ensures EntryOk(w', k) { assert EntryOk(w, k); }
    forall d | d in w.done ensures ResolvedOk(w', d) { ResolvedKept(w, w', d); }
    forall r | r in w.resolvers ensures ResolverOk(w', w.resolvers[r]) { ResolverKept(w, w', w.resolvers[r]); }
    forall t | t in w.cut ensures CutOk(w', t) { assert CutOk(w, t); }
    forall u | u in w'.revokers ensures RevokerOk(w', w'.revokers[u]) {
      assert u != v ==> RevokerOk(w, w.revokers[u]);
    }
  }

  /** A row becomes revoked; the author, if any, moves to its eviction in the same step. */
  lemma AddCut(w: World, t: Target, author: Option<nat>)
    requires Inv(w) && Exists(w, t) && t !in w.cut
    requires author.Some? ==> author.value in w.revokers && w.revokers[author.value] == Writing(t, PidOf(w, t))
    ensures var revokers := if author.Some? then w.revokers[author.value := Evicting(t, PidOf(w, t), true)] else w.revokers;
            Inv(w.(cut := w.cut[t := Cut(w.cache.seqNo, w.now, author)], revokers := revokers))
  {
    var revokers := if author.Some? then w.revokers[author.value := Evicting(t, PidOf(w, t), true)] else w.revokers;
    var w' := w.(cut := w.cut[t := Cut(w.cache.seqNo, w.now, author)], revokers := revokers);
    forall k | k in w.cache.entries ensures EntryOk(w', k) { EntryBeforeCut(w, t, author, revokers, k); }
    forall d | d in w.done ensures ResolvedOk(w', d) { ResolvedBeforeCut(w, t, author, revokers, d); }
    forall r | r in w.resolvers ensures ResolverOk(w', w.resolvers[r]) {
      ResolverBeforeCut(w, t, author, revokers, w.resolvers[r]);
    }
    forall u | u in w'.cut ensures CutOk(w', u) { assert u != t ==> CutOk(w, u); }
    forall v | v in w'.revokers ensures RevokerOk(w', w'.revokers[v]) {
      assert RevokerOk(w, w.revokers[v]);
    }
  }

  /** What was cached, resolved or read before a cut is on the right side of it. */
  lemma EntryBeforeCut(w: World, t: Target, author: Option<nat>, revokers: map<nat, Revoker>, k: Key)
    requires TC.Inv(w.cache, w.max) && EntryOk(w, k) && t !in w.cut
    ensures EntryOk(w.(cut := w.cut[t := Cut(w.cache.seqNo, w.now, author)], revokers := revokers), k)
  {
  }

  lemma ResolvedBeforeCut(w: World, t: Target, author: Option<nat>, revokers: map<nat, Revoker>, d: Resolved)
    requires ResolvedOk(w, d) && t !in w.cut
    ensures ResolvedOk(w.(cut := w.cut[t := Cut(w.cache.seqNo, w.now, author)], revokers := revokers), d)
  {
  }

  lemma ResolverBeforeCut(w: World, t: Target, author: Option<nat>, revokers: map<nat, Revoker>, x: Resolver)
    requires ResolverOk(w, x) && t !in w.cut
    ensures ResolverOk(w.(cut := w.cut[t := Cut(w.cache.seqNo, w.now, author)], revokers := revokers), x)
  {
  }

  /** Tables that only grow, but for users rows that are replaced and remembered. */
  ghost predicate Grows(w: World, w': World) {
    && w' == w.(tokens := w'.tokens, users := w'.users, agents := w'.agents, past := w'.past)
    && (forall k :: k in w.tokens ==> k in w'.tokens && w'.tokens[k] == w.tokens[k])
    && (forall a :: a in w.agents ==> a in w'.agents && w'.agents[a] == w.agents[a])
    && w.past <= w'.past
    && forall p :: p in w.users ==>
         (p in w'.users && w'.users[p] == w.users[p]) || PastUser(p, w.users[p], w.now) in w'.past
  }

  lemma OwnerAfterGrowth(w: World, w': World, k: Key, who: TC.Principal, since: real)
    requires Grows(w, w') && k in w.tokens && IsOwner(w, k, who, since) && since <= w.now
    ensures k in w'.tokens && IsOwner(w', k, who, since)
  {
    var pid := w.tokens[k].owner;
    if w.tokens[k].kind.User? {
      if !(pid in w.users && ShowsUser(who, w.users[pid])) {
        var u :| u in w.past && u.pid == pid && u.until >= since && ShowsUser(who, u.row);
        assert u in w'.past;
      } else if !(pid in w'.users && w'.users[pid] == w.users[pid]) {
        assert PastUser(pid, w.users[pid], w.now) in w'.past;
      }
    }
  }

  lemma GrowTables(w: World, w': World)
    requires Inv(w) && Grows(w, w')
    ensures Inv(w')
  {
    forall k | k in w.cache.entries ensures EntryOk(w', k) { assert EntryOk(w, k); }
    forall d | d in w.done ensures ResolvedOk(w', d) {
      assert ResolvedOk(w, d);
      OwnerAfterGrowth(w, w', d.key, d.principal, d.begun);
    }
    forall r | r in w.resolvers ensures ResolverOk(w', w.resolvers[r]) { ResolverAfterGrowth(w, w', w.resolvers[r]); }
    forall t | t in w.cut ensures CutOk(w', t) { assert CutOk(w, t); }
    forall v | v in w.revokers ensures RevokerOk(w', w.revokers[v]) { assert RevokerOk(w, w.revokers[v]); }
  }

  lemma ResolverAfterGrowth(w: World, w': World, x: Resolver)
    requires ResolverOk(w, x) && Grows(w, w')
    ensures ResolverOk(w', x)
  {
    if x.HasPrincipal? { OwnerAfterGrowth(w, w', x.key, x.principal, x.readAt); }
  }

  lemma TickKeepsInv(w: World, w': World)
    requires Inv(w) && w' == w.(now := w'.now) && w.now <= w'.now
    ensures Inv(w')
  {
    forall k | k in w.cache.entries ensures EntryOk(w', k) { assert EntryOk(w, k); }
    forall d | d in w.done ensures ResolvedOk(w', d) { assert ResolvedOk(w, d); }
    forall r | r in w.resolvers ensures ResolverOk(w', w.resolvers[r]) { assert ResolverOk(w, w.resolvers[r]); }
    forall t | t in w.cut ensures CutOk(w', t) { assert CutOk(w, t); }
    forall v | v in w.revokers ensures RevokerOk(w', w.revokers[v]) { assert RevokerOk(w, w.revokers[v]); }
  }

  lemma PutEntry(w: World, x: Resolver, c: TC.Cache, k: Key)
    requires Inv(w) && x.HasPrincipal? && ResolverOk(w, x)
    requires c.evictedAt == w.cache.evictedAt && k in c.entries
    requires || (k == x.key && TC.Accepts(w.cache, x.principal.id, x.generation)
                 && c.entries[k] == TC.Entry(x.readAt + w.ttl, x.principal))
             || (k in w.cache.entries && c.entries[k] == w.cache.entries[k])
    ensures EntryOk(w.(cache := c, done := w.done + {Resolved(x.key, x.principal, x.readAt)}), k)
  {
    assert forall p :: TC.Stamp(c, p) == TC.Stamp(w.cache, p);
    if k in w.cache.entries && c.entries[k] == w.cache.entries[k] {
      assert EntryOk(w, k);
    } else {
      assert x.readAt + w.ttl - w.ttl == x.readAt;
    }
  }

  /** The put of a finished resolve: kept only if nothing evicted its principal since its snapshot. */
  lemma PutKeepsInv(w: World, x: Resolver)
    requires Inv(w) && x.HasPrincipal? && ResolverOk(w, x)
    ensures Inv(w.(cache := TC.AfterPut(w.cache, x.key, x.principal, x.generation, x.readAt, w.ttl, w.max),
                   done := w.done + {Resolved(x.key, x.principal, x.readAt)}))
  {
    var c := TC.AfterPut(w.cache, x.key, x.principal, x.generation, x.readAt, w.ttl, w.max);
    var w' := w.(cache := c, done := w.done + {Resolved(x.key, x.principal, x.readAt)});
    TC.PutKeepsInv(w.cache, x.key, x.principal, x.generation, x.readAt, w.ttl, w.max);
    forall k | k in c.entries ensures EntryOk(w', k) {
      TC.PutEffect(w.cache, x.key, x.principal, x.generation, x.readAt, w.ttl, w.max, k);
      PutEntry(w, x, c, k);
    }
    forall d | d in w'.done ensures ResolvedOk(w', d) {
      assert d !in w.done ==> ResolvedOk(w, d);
      ResolvedKept(w, w', d);
    }
    forall r | r in w.resolvers ensures ResolverOk(w', w.resolvers[r]) { ResolverKept(w, w', w.resolvers[r]); }
    forall t | t in w.cut ensures CutOk(w', t) { assert CutOk(w, t); }
    assert forall p :: TC.Stamp(c, p) == TC.Stamp(w.cache, p);
    forall v | v in w.revokers ensures RevokerOk(w', w.revokers[v]) { assert RevokerOk(w, w.revokers[v]); }
  }

  lemma WriteKeepsInv(w: World, v: nat, visible: bool)
    requires Inv(w) && Enabled(w, Write(v, visible))
    ensures Inv(Do(w, Write(v, visible)))
  {
    var x := w.revokers[v];
    if visible && Exists(w, x.target) && PidOf(w, x.target) == x.pid {
      if x.target in w.cut {
        SetRevoker(w, v, Evicting(x.target, x.pid, true));
      } else {
        AddCut(w, x.target, Some(v));
      }
    } else {
      SetRevoker(w, v, Evicting(x.target, x.pid, false));
    }
  }

  lemma EvictShrinksCache(w: World, pid: string)
    requires Inv(w)
    ensures Inv(w.(cache := TC.AfterEvict(w.cache, pid)))
  {
    TC.EvictKeepsInv(w.cache, pid, w.max);
    var c := TC.AfterEvict(w.cache, pid);
    forall k | k in c.entries
      ensures k in w.cache.entries && c.entries[k] == w.cache.entries[k] && k in w.tokens
              && TC.Stamp(c, w.tokens[k].owner) == TC.Stamp(w.cache, w.tokens[k].owner)
    {
      assert EntryOk(w, k);
      assert ResolvedOk(w, Resolved(k, w.cache.entries[k].principal, w.cache.entries[k].expiresAt - w.ttl));
    }
    ShrinkCache(w, c);
  }

  lemma EvictKeepsInv(w: World, v: nat)
    requires Inv(w) && Enabled(w, Evict(v))
    ensures Inv(Do(w, Evict(v)))
  {
    var x := w.revokers[v];
    assert RevokerOk(w, x);
    assert x.hit ==> CutOk(w, x.target);
    EvictShrinksCache(w, x.pid);
    SetRevoker(w.(cache := TC.AfterEvict(w.cache, x.pid)), v, Returned(x.target, x.pid, x.hit));
  }

  lemma ResolveKeepsInv(w: World, s: Step)
    requires Inv(w) && Enabled(w, s)
    requires s.Begin? || s.ReadToken? || s.ReadPrincipal? || s.NoPrincipal?
    ensures Inv(Do(w, s))
  {
    if !s.Begin? { assert ResolverOk(w, w.resolvers[s.r]); }
    forall t | t in w.cut ensures CutOk(w, t) {}
    SetResolver(w, s.r, Do(w, s).resolvers[s.r]);
  }

  lemma GetShrinksCache(w: World, k: Key)
    requires Inv(w)
    ensures Inv(w.(cache := TC.AfterGet(w.cache, k, w.now)))
  {
    var c := TC.AfterGet(w.cache, k, w.now);
    assert TC.Inv(c, w.max) by { TC.GetKeepsInv(w.cache, k, w.now, w.max); }
    forall x | x in c.entries ensures x in w.tokens { assert EntryOk(w, x); }
    ShrinkCache(w, c);
  }

  lemma TableKeepsInv(w: World, s: Step)
    requires Inv(w) && Enabled(w, s) && (s.Mint? || s.PutUser? || s.AddAgent?)
    ensures Inv(Do(w, s))
  {
    assert Grows(w, Do(w, s));
    GrowTables(w, Do(w, s));
  }

  lemma StepKeepsInv(w: World, s: Step)
    requires Inv(w) && Enabled(w, s)
    ensures Inv(Do(w, s))
  {
    match s
    case Put(r) => FinishKeepsInv(w, r);
    case Evict(v) => EvictKeepsInv(w, v);
    case Write(v, visible) => WriteKeepsInv(w, v, visible);
    case Mint(_, _) => TableKeepsInv(w, s);
    case PutUser(_, _) => TableKeepsInv(w, s);
    case AddAgent(_, _) => TableKeepsInv(w, s);
    case Begin(_, _) => ResolveKeepsInv(w, s);
    case ReadToken(_) => ResolveKeepsInv(w, s);
    case ReadPrincipal(_) => ResolveKeepsInv(w, s);
    case NoPrincipal(_) => ResolveKeepsInv(w, s);
    case _ => OtherKeepsInv(w, s);
  }

  lemma OutsideKeepsInv(w: World, t: Target)
    requires Inv(w) && Exists(w, t)
    ensures Inv(w.(cut := Cutting(w, t, None)))
  {
    if t !in w.cut {
      AddCut(w, t, None);
    } else {
      assert w.(cut := Cutting(w, t, None)) == w;
    }
  }

  lemma StartKeepsInv(w: World, s: Step)
    requires Inv(w) && Enabled(w, s) && s.StartRevoke?
    ensures Inv(Do(w, s))
  {
    SetRevoker(w, s.v, Writing(s.target, s.pid));
  }

  lemma OtherKeepsInv(w: World, s: Step)
    requires Inv(w) && Enabled(w, s)
    requires s.Tick? || s.Get? || s.WriteFromOutside? || s.StartRevoke? || s.InvalidateAll? || s.GiveUp?
    ensures Inv(Do(w, s))
  {
    match s
    case Tick(_) => ClockKeepsInv(w, s);
    case Get(_) => ReadKeepsInv(w, s);
    case WriteFromOutside(t) => OutsideKeepsInv(w, t);
    case StartRevoke(_, _, _) => StartKeepsInv(w, s);
    case InvalidateAll => ClearShrinksCache(w);
    case GiveUp(_) => GiveUpKeepsInv(w, s);
  }

  lemma ClockKeepsInv(w: World, s: Step)
    requires Inv(w) && Enabled(w, s) && s.Tick?
    ensures Inv(Do(w, s))
  {
    TickKeepsInv(w, Do(w, s));
  }

  lemma ReadKeepsInv(w: World, s: Step)
    requires Inv(w) && Enabled(w, s) && s.Get?
    ensures Inv(Do(w, s))
  {
    GetShrinksCache(w, s.key);
  }

  lemma GiveUpKeepsInv(w: World, s: Step)
    requires Inv(w) && Enabled(w, s) && s.GiveUp?
    ensures Inv(Do(w, s))
  {
    DropResolver(w, s.r);
  }

  lemma ClearShrinksCache(w: World)
    requires Inv(w)
    ensures Inv(w.(cache := TC.AfterClear(w.cache)))
  {
    ShrinkCache(w, TC.AfterClear(w.cache));
  }

  lemma FinishKeepsInv(w: World, r: nat)
    requires Inv(w) && Enabled(w, Put(r))
    ensures Inv(Do(w, Put(r)))
  {
    PutKeepsInv(w, w.resolvers[r]);
    DropResolver(w.(cache := Do(w, Put(r)).cache, done := Do(w, Put(r)).done), r);
  }

  lemma {:induction false} RunKeepsInv(w: World, steps: seq<Step>)
    requires Inv(w) && AllEnabled(w, steps)
    ensures Inv(Run(w, steps))
    decreases |steps|
  {
    if steps != [] {
      StepKeepsInv(w, steps[0]);
      RunKeepsInv(Do(w, steps[0]), steps[1..]);
    }
  }

  // ---------------------------------------------------------------------
  // What every run guarantees
  // ---------------------------------------------------------------------

  /**
   While an entry exists for a token whose row, or whose agent's row, an in-process
   revoker has marked revoked, that revoker has not evicted yet.
   */
  lemma RevokedEntryMeansEvictionPending(w0: World, steps: seq<Step>, k: Key, t: Target)
    requires Init(w0) && AllEnabled(w0, steps)
    ensures var w := Run(w0, steps);
            k in w.cache.entries && k in w.tokens && t in w.cut && w.cut[t].author.Some? && Stops(w, t, k) ==>
              w.cut[t].author.value in w.revokers && w.revokers[w.cut[t].author.value].Evicting?
  {
    InitHoldsInv(w0);
    RunKeepsInv(w0, steps);
  }

  lemma {:induction false} ReturnedStays(w: World, steps: seq<Step>, v: nat)
    requires AllEnabled(w, steps) && v in w.revokers && w.revokers[v].Returned?
    ensures v in Run(w, steps).revokers && Run(w, steps).revokers[v] == w.revokers[v]
    decreases |steps|
  {
    if steps != [] {
      ReturnedStays(Do(w, steps[0]), steps[1..], v);
    }
  }

  /**
   Once a revoke whose write took effect has returned, no later `get` serves the revoked
   token, or any token of the revoked agent, however the rest of the run interleaves.
   */
  lemma NoHitAfterRevokeReturns(w0: World, before: seq<Step>, after: seq<Step>, v: nat, k: Key, now: real)
    requires Init(w0) && AllEnabled(w0, before) && AllEnabled(Run(w0, before), after)
    requires v in Run(w0, before).revokers
    requires Run(w0, before).revokers[v].Returned? && Run(w0, before).revokers[v].hit
    ensures var w := Run(Run(w0, before), after);
            k in w.tokens && Stops(w, Run(w0, before).revokers[v].target, k) ==>
              k !in w.cache.entries && TC.Lookup(w.cache, k, now).None?
  {
    InitHoldsInv(w0);
    RunKeepsInv(w0, before);
    RunKeepsInv(Run(w0, before), after);
    ReturnedStays(Run(w0, before), after, v);
    ReturnedMeansGone(Run(Run(w0, before), after), v, k);
  }

  lemma {:induction false} HitStays(w: World, steps: seq<Step>, v: nat, t: Target)
    requires AllEnabled(w, steps) && v in w.revokers && !w.revokers[v].Writing? && w.revokers[v].hit
    requires w.revokers[v].target == t && t in w.cut
    ensures var w' := Run(w, steps);
            && v in w'.revokers && !w'.revokers[v].Writing? && w'.revokers[v].hit && w'.revokers[v].target == t
            && t in w'.cut
    decreases |steps|
  {
    if steps != [] {
      HitStays(Do(w, steps[0]), steps[1..], v, t);
    }
  }

  /**
   A revoker whose UPDATE names a row of its own principal and commits always takes effect:
   once it returned the row is revoked and no `get` serves a token it stops.
   */
  lemma OwnRevokeTakesEffect(w0: World, before: seq<Step>, after: seq<Step>, v: nat, t: Target, k: Key, now: real)
    requires Init(w0) && AllEnabled(w0, before)
    requires v in Run(w0, before).revokers && Exists(Run(w0, before), t)
    requires Run(w0, before).revokers[v] == Writing(t, PidOf(Run(w0, before), t))
    requires AllEnabled(Run(w0, before), [Write(v, true)] + after)
    requires var done := Run(Run(w0, before), [Write(v, true)] + after).revokers; v in done && done[v].Returned?
    ensures var w := Run(Run(w0, before), [Write(v, true)] + after);
            t in w.cut && (k in w.tokens && Stops(w, t, k) ==> TC.Lookup(w.cache, k, now).None?)
  {
    var w1 := Run(w0, before);
    var steps := [Write(v, true)] + after;
    assert steps[0] == Write(v, true) && steps[1..] == after;
    var w2 := Do(w1, steps[0]);
    assert Inv(w1) by { InitHoldsInv(w0); RunKeepsInv(w0, before); }
    assert Inv(w2) by { WriteKeepsInv(w1, v, true); }
    RunKeepsInv(w2, after);
    HitStays(w2, after, v, t);
    ReturnedMeansGone(Run(w2, after), v, k);
  }

  lemma ReturnedMeansGone(w: World, v: nat, k: Key)
    requires Inv(w) && v in w.revokers && w.revokers[v].Returned? && w.revokers[v].hit
    ensures k in w.tokens && Stops(w, w.revokers[v].target, k) ==> k !in w.cache.entries
  {
    assert RevokerOk(w, w.revokers[v]);
    if k in w.cache.entries { assert EntryOk(w, k); }
  }

  /**
   A write this process never sees (an admin script, raw SQL) takes effect within the TTL:
   from `revoked_at + ttl` on, nothing it stops is served.
   */
  lemma RevocationBindsWithinTtl(w0: World, steps: seq<Step>, k: Key, t: Target)
    requires Init(w0) && AllEnabled(w0, steps)
    ensures var w := Run(w0, steps);
            k in w.tokens && t in w.cut && Stops(w, t, k) && w.now >= w.cut[t].at + w.ttl ==>
              TC.Lookup(w.cache, k, w.now).None?
  {
    InitHoldsInv(w0);
    RunKeepsInv(w0, steps);
  }

  /**
   Whatever a hit serves at `now` was built by a resolve of the same key that began after
   `now - ttl`, however long it ran and however often the entry was hit since; it is the
   token's own user or agent, with the fields its row had at some time since that resolve began.
   */
  lemma ServedIsFresh(w0: World, steps: seq<Step>, k: Key)
    requires Init(w0) && AllEnabled(w0, steps)
    ensures var w := Run(w0, steps);
            TC.Lookup(w.cache, k, w.now).Some? ==>
              exists d :: d in w.done && d.key == k && Some(d.principal) == TC.Lookup(w.cache, k, w.now)
                && w.now - w.ttl < d.begun <= w.now
                && k in w.tokens && IsOwner(w, k, d.principal, d.begun)
  {
    InitHoldsInv(w0);
    RunKeepsInv(w0, steps);
    var w := Run(w0, steps);
    if TC.Lookup(w.cache, k, w.now).Some? {
      var e := w.cache.entries[k];
      assert Resolved(k, e.principal, e.expiresAt - w.ttl) in w.done;
    }
  }

  /** The owner of token `k` is a known user, or a known agent that is not revoked. */
  predicate OwnerStands(w: World, k: Key)
    requires k in w.tokens
  {
    var owner := w.tokens[k].owner;
    if w.tokens[k].kind.User? then owner in w.users else owner in w.agents && AgentOf(owner) !in w.cut
  }

  /** Left alone, a resolve of a live token goes through, and is served until exactly one TTL after it began. */
  lemma ResolveGoesThrough(w: World, r: nat, k: Key, t: real)
    requires Inv(w) && w.max > 0 && r !in w.resolvers
    requires k in w.tokens && TokenOf(k) !in w.cut && OwnerStands(w, k)
    ensures var steps := [Begin(r, k), ReadToken(r), ReadPrincipal(r), Put(r)];
            && AllEnabled(w, steps)
            && (TC.Lookup(Run(w, steps).cache, k, t).Some? <==> t < w.now + w.ttl)
  {
    var n := w.cache.seqNo;
    var owner := PrincipalFor(w, k).value;
    var w1 := w.(resolvers := w.resolvers[r := Begun(k, n, w.now)]);
    var w2 := w.(resolvers := w.resolvers[r := HasToken(k, n, w.now)]);
    var w3 := w.(resolvers := w.resolvers[r := HasPrincipal(k, n, w.now, owner)]);
    var w4 := Do(w3, Put(r));
    assert Enabled(w1, ReadToken(r)) && Do(w1, ReadToken(r)) == w2 by { TokenIsRead(w, r, k, n, w.now); }
    assert Enabled(w2, ReadPrincipal(r)) && Do(w2, ReadPrincipal(r)) == w3 by { PrincipalIsRead(w, r, k, n, w.now); }
    assert TC.Lookup(w4.cache, k, t).Some? <==> t < w.now + w.ttl by { PutIsServed(w, k, owner, t); }
    FourSteps(w, Begin(r, k), ReadToken(r), ReadPrincipal(r), Put(r), w1, w2, w3, w4);
  }

  lemma TokenIsRead(w: World, r: nat, k: Key, generation: nat, at: real)
    requires k in w.tokens && TokenOf(k) !in w.cut
    ensures var w1 := w.(resolvers := w.resolvers[r := Begun(k, generation, at)]);
            && Enabled(w1, ReadToken(r))
            && Do(w1, ReadToken(r)) == w.(resolvers := w.resolvers[r := HasToken(k, generation, at)])
  {
    var x, y := Begun(k, generation, at), HasToken(k, generation, at);
    assert w.resolvers[r := x][r := y] == w.resolvers[r := y];
  }

  lemma PrincipalIsRead(w: World, r: nat, k: Key, generation: nat, at: real)
    requires k in w.tokens && OwnerStands(w, k)
    ensures PrincipalFor(w, k).Some?
    ensures var w2 := w.(resolvers := w.resolvers[r := HasToken(k, generation, at)]);
            && Enabled(w2, ReadPrincipal(r))
            && Do(w2, ReadPrincipal(r))
               == w.(resolvers := w.resolvers[r := HasPrincipal(k, generation, at, PrincipalFor(w, k).value)])
  {
    var x, y := HasToken(k, generation, at), HasPrincipal(k, generation, at, PrincipalFor(w, k).value);
    assert w.resolvers[r := x][r := y] == w.resolvers[r := y];
  }

  lemma PutIsServed(w: World, k: Key, p: TC.Principal, t: real)
    requires TC.Inv(w.cache, w.max) && w.max > 0
    ensures var c := TC.AfterPut(w.cache, k, p, w.cache.seqNo, w.now, w.ttl, w.max);
            TC.Lookup(c, k, t).Some? <==> t < w.now + w.ttl
  {
    TC.PutWrites(w.cache, k, p, w.cache.seqNo, w.now, w.ttl, w.max);
  }

  lemma FourSteps(w: World, a: Step, b: Step, c: Step, d: Step, w1: World, w2: World, w3: World, w4: World)
    requires Enabled(w, a) && w1 == Do(w, a)
    requires Enabled(w1, b) && w2 == Do(w1, b)
    requires Enabled(w2, c) && w3 == Do(w2, c)
    requires Enabled(w3, d) && w4 == Do(w3, d)
    ensures AllEnabled(w, [a, b, c, d]) && Run(w, [a, b, c, d]) == w4
  {
    assert [a, b, c, d][1..] == [b, c, d] && [b, c, d][1..] == [c, d] && [c, d][1..] == [d] && [d][1..] == [];
    assert AllEnabled(w4, []) && Run(w4, []) == w4;
    assert AllEnabled(w3, [d]) && Run(w3, [d]) == w4;
    assert AllEnabled(w2, [c, d]) && Run(w2, [c, d]) == w4;
    assert AllEnabled(w1, [b, c, d]) && Run(w1, [b, c, d]) == w4;
  }
}
