/**
 The uncached resolver. It looks a token up by digest, then by embedded row id, then by a
 scan of the legacy rows, and backfills digests as it goes. The reference is a plain scan
 that Argon2-verifies every live row.

 SHA-256 and Argon2 are the parameters `digest` and `verify`; that the digest is injective
 and that a hash verifies exactly the plaintext it was minted from are hypotheses.
 */
module TokenResolution {
  import opened Base
  import opened TokenCache
  import opened Accounts
  import opened TokenFormat

  /** 2026-05-10T00:00:00+00:00 in Unix seconds. */
  const LEGACY_TOKEN_CUTOFF := 1778371200.0

  datatype TokenRow = TokenRow(
    id: string, hash: string, digest: Option<string>, kind: Kind, owner: string,
    createdAt: real, lastUsed: Option<real>, revoked: bool)

  datatype AgentRow = AgentRow(info: AgentInfo, revoked: bool)

  datatype Db = Db(tokens: seq<TokenRow>, users: map<string, UserRow>, agents: map<string, AgentRow>)

  // ---------------------------------------------------------------------
  // Queries
  // ---------------------------------------------------------------------

  /** The WHERE clauses on the tokens table. */
  datatype Query =
    | ByDigest(digest: string)
    | ById(id: string)
    | LegacyScan
    | WithoutDigest

  /** The row is not a token of a revoked agent. */
  predicate NotRevokedAgent(db: Db, row: TokenRow) {
    !(row.kind.Agent? && row.owner in db.agents && db.agents[row.owner].revoked)
  }

  predicate Matches(db: Db, q: Query, row: TokenRow) {
    match q
    case ByDigest(d) => row.digest == Some(d) && !row.revoked
    case ById(id) => row.id == id && !row.revoked && row.digest.None? && NotRevokedAgent(db, row)
    case LegacyScan =>
      !row.revoked && row.digest.None? && row.createdAt < LEGACY_TOKEN_CUTOFF && NotRevokedAgent(db, row)
    case WithoutDigest => !row.revoked && row.digest.None? && NotRevokedAgent(db, row)
  }

  /** Positions, among the first `n` rows, of the rows a query returns. */
  function SelectUpTo(db: Db, q: Query, n: nat): (r: seq<nat>)
    requires n <= |db.tokens|
    ensures forall i: nat :: i in r <==> i < n && Matches(db, q, db.tokens[i])
  {
    if n == 0 then []
    else SelectUpTo(db, q, n - 1) + (if Matches(db, q, db.tokens[n - 1]) then [n - 1] else [])
  }

  function Select(db: Db, q: Query): (r: seq<nat>)
    ensures forall i: nat :: i in r <==> i < |db.tokens| && Matches(db, q, db.tokens[i])
  {
    SelectUpTo(db, q, |db.tokens|)
  }

  /** Principal for a matched row: a known user, or a known agent that is not revoked. */
  function Build(db: Db, row: TokenRow): Option<Principal> {
    match row.kind
    case User => if row.owner in db.users then Some(UserPrincipal(row.owner, db.users[row.owner])) else None
    case Agent =>
      if row.owner in db.agents && !db.agents[row.owner].revoked
      then Some(AgentPrincipal(row.owner, db.agents[row.owner].info)) else None
  }

  // ---------------------------------------------------------------------
  // Reference resolver and mint rules
  // ---------------------------------------------------------------------

  /** First live row from position `i` on whose hash verifies `p`. */
  function Scan(db: Db, verify: (string, string) -> bool, p: string, i: nat): (r: Option<nat>)
    requires i <= |db.tokens|
    ensures r.Some? ==> i <= r.value < |db.tokens| && !db.tokens[r.value].revoked
    decreases |db.tokens| - i
  {
    if i == |db.tokens| then None
    else if !db.tokens[i].revoked && verify(p, db.tokens[i].hash) then Some(i)
    else Scan(db, verify, p, i + 1)
  }

  /** The simple resolver: verify every live row, then build the principal. */
  function VerifyEveryLiveRow(db: Db, verify: (string, string) -> bool, p: string): Option<Principal> {
    var hit := Scan(db, verify, p, 0);
    if hit.None? then None else Build(db, db.tokens[hit.value])
  }

  ghost predicate Injective(digest: string -> string) {
    forall p, q :: digest(p) == digest(q) ==> p == q
  }

  /** The plaintext is of the new shape and names this very row and its kind. */
  predicate NamesRow(p: string, row: TokenRow) {
    Parse(p).Some? && Parse(p).value.kind == row.kind && Parse(p).value.tokenId == row.id
  }

  /**
   Tables the minting code can produce, row `i` holding the token with plaintext `plain[i]`:
   ids and plaintexts are distinct, a digest is that of the row's own plaintext or missing,
   and every row is of the new shape or older than the cutoff. An old plaintext may
   happen to parse as new-shape with any embedded id.
   */
  ghost predicate WellMinted(db: Db, plain: seq<string>, digest: string -> string, verify: (string, string) -> bool) {
    && |plain| == |db.tokens|
    && (forall i, j :: 0 <= i < j < |plain| ==> db.tokens[i].id != db.tokens[j].id && plain[i] != plain[j])
    && (forall i :: 0 <= i < |plain| ==> db.tokens[i].digest in {None, Some(digest(plain[i]))})
    && (forall i, p :: 0 <= i < |plain| ==> (verify(p, db.tokens[i].hash) <==> p == plain[i]))
    && (forall i :: 0 <= i < |plain| ==>
          db.tokens[i].createdAt < LEGACY_TOKEN_CUTOFF || NamesRow(plain[i], db.tokens[i]))
  }

  /** `UPDATE tokens SET last_used_at = now, token_digest = COALESCE(token_digest, d)`. */
  function Backfilled(db: Db, i: nat, d: string, now: real): Db
    requires i < |db.tokens|
  {
    var row := db.tokens[i];
    db.(tokens := db.tokens[i := row.(lastUsed := Some(now), digest := if row.digest.None? then Some(d) else row.digest)])
  }

  /** The table after resolving `p`: only the row that resolved is touched, if the write lands. */
  function AfterResolve(db: Db, digest: string -> string, verify: (string, string) -> bool, p: string,
                        lands: bool, now: real): Db {
    var hit := Scan(db, verify, p, 0);
    if hit.Some? && Build(db, db.tokens[hit.value]).Some? && lands
    then Backfilled(db, hit.value, digest(p), now) else db
  }

  lemma {:induction false} ScanFinds(db: Db, plain: seq<string>, digest: string -> string,
                                     verify: (string, string) -> bool, p: string, i: nat)
    requires WellMinted(db, plain, digest, verify) && i <= |db.tokens|
    ensures forall j :: i <= j < |plain| ==>
              (Scan(db, verify, p, i) == Some(j) <==> plain[j] == p && !db.tokens[j].revoked)
    decreases |db.tokens| - i
  {
    if i < |db.tokens| {
      ScanFinds(db, plain, digest, verify, p, i + 1);
    }
  }

  lemma BackfillKeepsRules(db: Db, plain: seq<string>, digest: string -> string,
                           verify: (string, string) -> bool, p: string, lands: bool, now: real)
    requires WellMinted(db, plain, digest, verify)
    ensures WellMinted(AfterResolve(db, digest, verify, p, lands, now), plain, digest, verify)
  {
    ScanFinds(db, plain, digest, verify, p, 0);
  }

  /** The scan only looks at which rows are live. */
  lemma SameScan(db: Db, db': Db, plain: seq<string>, digest: string -> string, verify: (string, string) -> bool, q: string)
    requires WellMinted(db, plain, digest, verify) && WellMinted(db', plain, digest, verify)
    requires forall i :: 0 <= i < |plain| ==> db'.tokens[i].revoked == db.tokens[i].revoked
    ensures Scan(db', verify, q, 0) == Scan(db, verify, q, 0)
  {
    ScanFinds(db, plain, digest, verify, q, 0);
    ScanFinds(db', plain, digest, verify, q, 0);
    var a, b := Scan(db, verify, q, 0), Scan(db', verify, q, 0);
    assert a.Some? ==> b == Some(a.value);
    assert b.Some? ==> a == Some(b.value);
  }

  /**
   The backfill binds the digest of the plaintext that verified, so it keeps the mint
   rules and the answer for every plaintext.
   */
  lemma BackfillKeepsAnswers(db: Db, plain: seq<string>, digest: string -> string,
                             verify: (string, string) -> bool, p: string, lands: bool, now: real, q: string)
    requires WellMinted(db, plain, digest, verify)
    ensures var db' := AfterResolve(db, digest, verify, p, lands, now);
            && WellMinted(db', plain, digest, verify)
            && VerifyEveryLiveRow(db', verify, q) == VerifyEveryLiveRow(db, verify, q)
  {
    var db' := AfterResolve(db, digest, verify, p, lands, now);
    BackfillKeepsRules(db, plain, digest, verify, p, lands, now);
    SameScan(db, db', plain, digest, verify, q);
  }

  /** No two rows ever hold the same digest, so the unique index never rejects a backfill. */
  lemma DigestsStayUnique(db: Db, plain: seq<string>, digest: string -> string,
                          verify: (string, string) -> bool, p: string, lands: bool, now: real)
    requires WellMinted(db, plain, digest, verify) && Injective(digest)
    ensures var tokens := AfterResolve(db, digest, verify, p, lands, now).tokens;
            forall i, j :: 0 <= i < j < |tokens| && tokens[i].digest.Some? ==> tokens[i].digest != tokens[j].digest
  {
    BackfillKeepsAnswers(db, plain, digest, verify, p, lands, now, p);
  }

  // ---------------------------------------------------------------------
  // Counters
  // ---------------------------------------------------------------------

  /** How many of the first `n` rows a query returns. */
  function CountUpTo(db: Db, q: Query, n: nat): nat
    requires n <= |db.tokens|
  {
    if n == 0 then 0 else CountUpTo(db, q, n - 1) + (if Matches(db, q, db.tokens[n - 1]) then 1 else 0)
  }

  lemma {:induction false} SelectedAreCounted(db: Db, q: Query, n: nat)
    requires n <= |db.tokens|
    ensures |SelectUpTo(db, q, n)| == CountUpTo(db, q, n)
  {
    if n > 0 { SelectedAreCounted(db, q, n - 1); }
  }

  lemma {:induction false} CountShrinks(db: Db, db': Db, q: Query, n: nat)
    requires n <= |db.tokens| && n <= |db'.tokens|
    requires forall i :: 0 <= i < n && Matches(db', q, db'.tokens[i]) ==> Matches(db, q, db.tokens[i])
    ensures CountUpTo(db', q, n) <= CountUpTo(db, q, n)
  {
    if n > 0 { CountShrinks(db, db', q, n - 1); }
  }

  lemma {:induction false} CountLosesOne(db: Db, db': Db, q: Query, n: nat, k: nat)
    requires n <= |db.tokens| && n <= |db'.tokens| && k < n
    requires forall i :: 0 <= i < n && i != k ==> (Matches(db', q, db'.tokens[i]) <==> Matches(db, q, db.tokens[i]))
    requires Matches(db, q, db.tokens[k]) && !Matches(db', q, db'.tokens[k])
    ensures CountUpTo(db', q, n) == CountUpTo(db, q, n) - 1
  {
    if k < n - 1 {
      CountLosesOne(db, db', q, n - 1, k);
    } else {
      CountShrinks(db, db', q, k);
      CountShrinks(db', db, q, k);
    }
  }

  /** The row an Argon2 fallback would have to find: live, not yet backfilled. */
  predicate NeedsFallback(db: Db, verify: (string, string) -> bool, p: string) {
    var hit := Scan(db, verify, p, 0);
    hit.Some? && Build(db, db.tokens[hit.value]).Some? && db.tokens[hit.value].digest.None?
  }

  datatype DbOp =
    | Resolve(plaintext: string, lands: bool, at: real)
    | MintToken(row: TokenRow, plaintext: string)
    | RevokeToken(id: string, kind: Kind, owner: string)
    | RevokeAgent(agent: string)

  function Apply(db: Db, op: DbOp, digest: string -> string, verify: (string, string) -> bool): Db {
    match op
    case Resolve(p, lands, now) => AfterResolve(db, digest, verify, p, lands, now)
    case MintToken(row, p) => db.(tokens := db.tokens + [row.(digest := Some(digest(p)), lastUsed := None, revoked := false)])
    case RevokeToken(id, kind, owner) =>
      db.(tokens := seq(|db.tokens|, i requires 0 <= i < |db.tokens| =>
            var row := db.tokens[i];
            if row.id == id && row.kind == kind && row.owner == owner then row.(revoked := true) else row))
    case RevokeAgent(a) =>
      if a in db.agents then db.(agents := db.agents[a := db.agents[a].(revoked := true)]) else db
  }

  /** `COUNT(*)` over a query's rows. */
  function Count(db: Db, q: Query): nat {
    CountUpTo(db, q, |db.tokens|)
  }

  /** The row-wise effect of an operation: no row starts matching a query for digest-less rows. */
  lemma MatchesOnlyLost(db: Db, op: DbOp, digest: string -> string, verify: (string, string) -> bool, q: Query, i: nat)
    requires q in {LegacyScan, WithoutDigest}
    requires i < |db.tokens|
    requires Matches(Apply(db, op, digest, verify), q, Apply(db, op, digest, verify).tokens[i])
    ensures Matches(db, q, db.tokens[i])
  {
  }

  /** No in-process operation increases `without_digest` or `legacy_scan`. */
  lemma CountersNeverGrow(db: Db, op: DbOp, digest: string -> string, verify: (string, string) -> bool, q: Query)
    requires q in {LegacyScan, WithoutDigest}
    ensures Count(Apply(db, op, digest, verify), q) <= Count(db, q)
  {
    var db' := Apply(db, op, digest, verify);
    forall i | 0 <= i < |db.tokens| && Matches(db', q, db'.tokens[i]) ensures Matches(db, q, db.tokens[i]) {
      MatchesOnlyLost(db, op, digest, verify, q, i);
    }
    CountShrinks(db, db', q, |db.tokens|);
  }

  /** A fallback success whose touch lands takes exactly one row off `without_digest`. */
  lemma FallbackLowersCounter(db: Db, digest: string -> string, verify: (string, string) -> bool, p: string, now: real)
    requires NeedsFallback(db, verify, p)
    ensures Count(AfterResolve(db, digest, verify, p, true, now), WithoutDigest) == Count(db, WithoutDigest) - 1
  {
    CountLosesOne(db, AfterResolve(db, digest, verify, p, true, now), WithoutDigest, |db.tokens|,
                  Scan(db, verify, p, 0).value);
  }

  /** Fallback successes with a landed touch over a run of operations. */
  function Backfills(db: Db, ops: seq<DbOp>, digest: string -> string, verify: (string, string) -> bool): nat
    decreases |ops|
  {
    if ops == [] then 0
    else
      (if ops[0].Resolve? && ops[0].lands && NeedsFallback(db, verify, ops[0].plaintext) then 1 else 0)
      + Backfills(Apply(db, ops[0], digest, verify), ops[1..], digest, verify)
  }

  /** Over any run, at most `without_digest` resolves pay a fallback and land their backfill. */
  lemma {:induction false} BackfillsAreBounded(db: Db, ops: seq<DbOp>, digest: string -> string,
                                               verify: (string, string) -> bool)
    ensures Backfills(db, ops, digest, verify) <= Count(db, WithoutDigest)
    decreases |ops|
  {
    if ops != [] {
      var op := ops[0];
      if op.Resolve? && op.lands && NeedsFallback(db, verify, op.plaintext) {
        FallbackLowersCounter(db, digest, verify, op.plaintext, op.at);
      } else {
        CountersNeverGrow(db, op, digest, verify, WithoutDigest);
      }
      BackfillsAreBounded(Apply(db, op, digest, verify), ops[1..], digest, verify);
    }
  }

  // ---------------------------------------------------------------------
  // Minting
  // ---------------------------------------------------------------------

  /** What the random generators give a mint: a fresh row id, a fresh plaintext of the row's own shape, its hash. */
  ghost predicate FreshMint(db: Db, plain: seq<string>, verify: (string, string) -> bool, row: TokenRow,
                            hex: string, secret: string) {
    && IsHexId(hex) && IsSecret(secret) && row.id == ID_PREFIX + hex
    && (forall i :: 0 <= i < |db.tokens| ==> db.tokens[i].id != row.id)
    && Format(row.kind, row.id, secret) !in plain
    && forall p :: verify(p, row.hash) <==> p == Format(row.kind, row.id, secret)
  }

  lemma AppendMinted(db: Db, plain: seq<string>, digest: string -> string, verify: (string, string) -> bool,
                     row: TokenRow, p: string)
    requires WellMinted(db, plain, digest, verify)
    requires forall i :: 0 <= i < |db.tokens| ==> db.tokens[i].id != row.id && plain[i] != p
    requires row.digest == Some(digest(p)) && NamesRow(p, row)
    requires forall q :: verify(q, row.hash) <==> q == p
    ensures WellMinted(db.(tokens := db.tokens + [row]), plain + [p], digest, verify)
  {
    var db' := db.(tokens := db.tokens + [row]);
    var all := plain + [p];
    forall i, q | 0 <= i < |all| ensures verify(q, db'.tokens[i].hash) <==> q == all[i] {
      if i < |plain| { assert verify(q, db.tokens[i].hash) <==> q == plain[i]; }
    }
  }

  /** A mint keeps the rules, and from then on the new plaintext resolves to its own principal. */
  lemma MintKeepsRules(db: Db, plain: seq<string>, digest: string -> string, verify: (string, string) -> bool,
                       row: TokenRow, hex: string, secret: string)
    requires WellMinted(db, plain, digest, verify) && FreshMint(db, plain, verify, row, hex, secret)
    ensures var p := Format(row.kind, row.id, secret);
            var db' := Apply(db, MintToken(row, p), digest, verify);
            && WellMinted(db', plain + [p], digest, verify)
            && VerifyEveryLiveRow(db', verify, p) == Build(db, row)
  {
    var p := Format(row.kind, row.id, secret);
    var row' := row.(digest := Some(digest(p)), lastUsed := None, revoked := false);
    assert NamesRow(p, row') by { ParseFormat(row.kind, hex, secret); }
    assert forall i :: 0 <= i < |plain| ==> plain[i] in plain;
    AppendMinted(db, plain, digest, verify, row', p);
    var db' := db.(tokens := db.tokens + [row']);
    ScanFinds(db', plain + [p], digest, verify, p, 0);
    assert (plain + [p])[|plain|] == p && db'.tokens[|plain|] == row';
  }

  /** Revoking rows or agents keeps the rules too. */
  lemma RevokeKeepsRules(db: Db, plain: seq<string>, digest: string -> string, verify: (string, string) -> bool, op: DbOp)
    requires WellMinted(db, plain, digest, verify) && (op.RevokeToken? || op.RevokeAgent?)
    ensures WellMinted(Apply(db, op, digest, verify), plain, digest, verify)
  {
    var db' := Apply(db, op, digest, verify);
    forall i | 0 <= i < |plain|
      ensures db'.tokens[i] == db.tokens[i].(revoked := db'.tokens[i].revoked)
    {
    }
  }

  // ---------------------------------------------------------------------
  // Who a plaintext is
  // ---------------------------------------------------------------------

  /** Row `i` is live and holds the token with plaintext `p`. */
  predicate Holds(db: Db, plain: seq<string>, p: string, i: nat) {
    i < |plain| && i < |db.tokens| && plain[i] == p && !db.tokens[i].revoked
  }

  /** The row's owner is a known user, or a known agent that is not revoked. */
  predicate OwnerStands(db: Db, row: TokenRow) {
    match row.kind
    case User => row.owner in db.users
    case Agent => row.owner in db.agents && !db.agents[row.owner].revoked
  }

  /** `who` is the row's owner as the users or agents table has it. */
  predicate IsOwner(db: Db, row: TokenRow, who: Principal)
    requires OwnerStands(db, row)
  {
    && who.id == row.owner && who.kind == row.kind
    && match row.kind
       case User =>
         && who.displayName == db.users[row.owner].displayName && who.isAdmin == db.users[row.owner].isAdmin
         && who.userId == None
       case Agent =>
         var agent := db.agents[row.owner].info;
         && who.displayName == Some(agent.displayName) && !who.isAdmin
         && (agent.ownerType == UserOwned ==> who.userId == Some(agent.ownerId))
         && (agent.ownerType == ServiceOwned ==> who.userId == None)
  }

  /** Someone is answered exactly when a live row holds the plaintext and its owner stands, and then it is that owner. */
  ghost predicate RightAnswer(db: Db, plain: seq<string>, p: string, r: Option<Principal>) {
    && (r.Some? <==> exists i: nat :: Holds(db, plain, p, i) && OwnerStands(db, db.tokens[i]))
    && forall i: nat :: Holds(db, plain, p, i) && r.Some? ==> OwnerStands(db, db.tokens[i]) && IsOwner(db, db.tokens[i], r.value)
  }

  lemma ReferenceIsRight(db: Db, plain: seq<string>, digest: string -> string, verify: (string, string) -> bool, p: string)
    requires WellMinted(db, plain, digest, verify)
    ensures RightAnswer(db, plain, p, VerifyEveryLiveRow(db, verify, p))
  {
    ScanFinds(db, plain, digest, verify, p, 0);
    var hit, r := Scan(db, verify, p, 0), VerifyEveryLiveRow(db, verify, p);
    if hit.Some? {
      assert Holds(db, plain, p, hit.value);
      assert r.Some? <==> OwnerStands(db, db.tokens[hit.value]);
    }
    forall i: nat | Holds(db, plain, p, i) ensures hit == Some(i) {}
  }

  /** Revoking a token, or an agent, stops exactly that token, or that agent's tokens, from resolving. */
  lemma RevokeStopsExactly(db: Db, plain: seq<string>, digest: string -> string, verify: (string, string) -> bool,
                           op: DbOp, i: nat)
    requires WellMinted(db, plain, digest, verify) && (op.RevokeToken? || op.RevokeAgent?) && i < |plain|
    ensures var row := db.tokens[i];
            var stopped := if op.RevokeToken? then row.id == op.id && row.kind == op.kind && row.owner == op.owner
                           else row.kind == Agent && row.owner == op.agent;
            VerifyEveryLiveRow(Apply(db, op, digest, verify), verify, plain[i])
            == if stopped then None else VerifyEveryLiveRow(db, verify, plain[i])
  {
    var db' := Apply(db, op, digest, verify);
    RevokeKeepsRules(db, plain, digest, verify, op);
    ScanFinds(db, plain, digest, verify, plain[i], 0);
    ScanFinds(db', plain, digest, verify, plain[i], 0);
    var a, b := Scan(db, verify, plain[i], 0), Scan(db', verify, plain[i], 0);
    assert a.Some? ==> a == Some(i);
    assert b.Some? ==> b == Some(i);
  }

  // ---------------------------------------------------------------------
  // The resolver
  // ---------------------------------------------------------------------

  /** A touch that lands stamps the row of the plaintext and leaves it with the plaintext's digest. */
  lemma TouchesItsRow(db: Db, plain: seq<string>, digest: string -> string, verify: (string, string) -> bool, p: string,
                      lands: bool, now: real)
    requires WellMinted(db, plain, digest, verify)
    ensures var db', r := AfterResolve(db, digest, verify, p, lands, now), VerifyEveryLiveRow(db, verify, p);
            && (r.None? || !lands ==> db' == db)
            && (r.Some? && lands ==>
                  exists i: nat :: Holds(db, plain, p, i)
                    && db'.tokens == db.tokens[i := db.tokens[i].(lastUsed := Some(now), digest := Some(digest(p)))])
  {
    ScanFinds(db, plain, digest, verify, p, 0);
    var hit := Scan(db, verify, p, 0);
    if hit.Some? {
      assert Holds(db, plain, p, hit.value);
      assert db.tokens[hit.value].digest in {None, Some(digest(p))};
    }
  }

  /** The row a plaintext belongs to has its digest, or is named by the plaintext, or is old enough to be scanned. */
  lemma SomePathFinds(db: Db, plain: seq<string>, digest: string -> string, verify: (string, string) -> bool, p: string)
    requires WellMinted(db, plain, digest, verify)
    ensures var hit := Scan(db, verify, p, 0);
            hit.Some? ==> var row := db.tokens[hit.value];
                          row.digest.Some? || row.createdAt < LEGACY_TOKEN_CUTOFF || NamesRow(p, row)
  {
    ScanFinds(db, plain, digest, verify, p, 0);
  }

  class TokenStore {
    const digest: string -> string
    const verify: (string, string) -> bool
    var tokens: seq<TokenRow>
    var users: map<string, UserRow>
    var agents: map<string, AgentRow>

    function State(): Db
      reads this
    {
      Db(tokens, users, agents)
    }

    ghost predicate Minted(plain: seq<string>)
      reads this
    {
      WellMinted(State(), plain, digest, verify) && Injective(digest)
    }

    constructor (digest: string -> string, verify: (string, string) -> bool,
                 tokens: seq<TokenRow>, users: map<string, UserRow>, agents: map<string, AgentRow>)
      ensures this.digest == digest && this.verify == verify
      ensures State() == Db(tokens, users, agents)
    {
      this.digest, this.verify := digest, verify;
      this.tokens, this.users, this.agents := tokens, users, agents;
    }

    /** `_build_principal_and_touch`: the touch is best effort and never blocks the answer. */
    method BuildPrincipalAndTouch(i: nat, d: string, lands: bool, now: real) returns (r: Option<Principal>)
      requires i < |tokens|
      modifies this`tokens
      ensures r == Build(old(State()), old(tokens)[i])
      ensures State() == if r.Some? && lands then Backfilled(old(State()), i, d, now) else old(State())
    {
      var row := tokens[i];
      match row.kind {
        case User =>
          if row.owner !in users { return None; }
          r := Some(UserPrincipal(row.owner, users[row.owner]));
        case Agent =>
          if row.owner !in agents || agents[row.owner].revoked { return None; }
          r := Some(AgentPrincipal(row.owner, agents[row.owner].info));
      }
      if lands {
        var coalesced := if row.digest.None? then Some(d) else row.digest;
        tokens := tokens[i := row.(lastUsed := Some(now), digest := coalesced)];
      }
    }

    /** The reference answer, when the row it comes from satisfies `reached`. */
    ghost predicate Answers(db: Db, p: string, r: Option<Principal>, reached: TokenRow -> bool)
      reads this
    {
      var hit := Scan(db, verify, p, 0);
      r == if hit.Some? && reached(db.tokens[hit.value]) then Build(db, db.tokens[hit.value]) else None
    }

    /** (a) One digest lookup, no Argon2. */
    method ResolveByDigest(p: string, ghost plain: seq<string>, lands: bool, now: real) returns (r: Option<Principal>)
      requires Minted(plain)
      modifies this`tokens
      ensures Answers(old(State()), p, r, (row: TokenRow) => row.digest.Some?)
      ensures State() == if r.Some? then AfterResolve(old(State()), digest, verify, p, lands, now) else old(State())
    {
      ScanFinds(State(), plain, digest, verify, p, 0);
      var rows := Select(State(), ByDigest(digest(p)));
      if rows == [] { return None; }
      assert rows[0] in rows;
      r := BuildPrincipalAndTouch(rows[0], digest(p), lands, now);
    }

    /** (b) The row the plaintext names, while it has no digest: type check, then one verify. */
    method ResolveByTokenId(parsed: Parsed, p: string, ghost plain: seq<string>, lands: bool, now: real)
      returns (r: Option<Principal>, cost: nat)
      requires Minted(plain)
      modifies this`tokens
      ensures Answers(old(State()), p, r,
                      (row: TokenRow) => row.digest.None? && row.id == parsed.tokenId && row.kind == parsed.kind)
      ensures State() == if r.Some? then AfterResolve(old(State()), digest, verify, p, lands, now) else old(State())
      ensures cost <= 1
    {
      ScanFinds(State(), plain, digest, verify, p, 0);
      cost := 0;
      var rows := Select(State(), ById(parsed.tokenId));
      if rows == [] { return None, cost; }
      assert rows[0] in rows;
      var row := tokens[rows[0]];
      if row.kind != parsed.kind { return None, cost; }
      cost := 1;
      if !verify(p, row.hash) { return None, cost; }
      r := BuildPrincipalAndTouch(rows[0], digest(p), lands, now);
    }

    /** (c) Verify each live, digest-less row from before the cutoff. */
    method ResolveLegacy(p: string, ghost plain: seq<string>, lands: bool, now: real)
      returns (r: Option<Principal>, cost: nat)
      requires Minted(plain)
      modifies this`tokens
      ensures Answers(old(State()), p, r, (row: TokenRow) => row.digest.None? && row.createdAt < 1778371200.0)
      ensures State() == if r.Some? then AfterResolve(old(State()), digest, verify, p, lands, now) else old(State())
      ensures cost <= Count(old(State()), LegacyScan)
    {
      ScanFinds(State(), plain, digest, verify, p, 0);
      cost := 0;
      var rows := Select(State(), LegacyScan);
      assert |rows| == Count(State(), LegacyScan) by { SelectedAreCounted(State(), LegacyScan, |tokens|); }
      for k := 0 to |rows|
        invariant State() == old(State()) && cost == k
        invariant forall j :: 0 <= j < k ==> rows[j] < |plain| && plain[rows[j]] != p
      {
        assert rows[k] in rows;
        cost := cost + 1;
        if verify(p, tokens[rows[k]].hash) {
          r := BuildPrincipalAndTouch(rows[k], digest(p), lands, now);
          return;
        }
      }
      r := None;
    }

    /**
     The fast form: same answer as verifying every live row, same table but for the
     backfilled row, and at most one Argon2 verify more than the legacy scan has rows.
     */
    method ResolveUncached(p: string, ghost plain: seq<string>, lands: bool, now: real)
      returns (r: Option<Principal>, cost: nat)
      requires Minted(plain)
      modifies this`tokens
      ensures r == VerifyEveryLiveRow(old(State()), verify, p) && RightAnswer(old(State()), plain, p, r)
      ensures State() == AfterResolve(old(State()), digest, verify, p, lands, now)
      ensures r.None? || !lands ==> tokens == old(tokens)
      ensures r.Some? && lands ==>
                exists i: nat :: Holds(old(State()), plain, p, i)
                  && tokens == old(tokens)[i := old(tokens)[i].(lastUsed := Some(now), digest := Some(digest(p)))]
      ensures Minted(plain)
      ensures cost <= 1 + Count(old(State()), LegacyScan)
      ensures r.Some? && !NeedsFallback(old(State()), verify, p) ==> cost == 0
    {
      ghost var db := State();
      ReferenceIsRight(db, plain, digest, verify, p);
      TouchesItsRow(db, plain, digest, verify, p, lands, now);
      SomePathFinds(db, plain, digest, verify, p);
      BackfillKeepsRules(db, plain, digest, verify, p, lands, now);
      cost := 0;
      r := ResolveByDigest(p, plain, lands, now);
      if r.Some? { return; }
      var parsed := Parse(p);
      if parsed.Some? {
        r, cost := ResolveByTokenId(parsed.value, p, plain, lands, now);
        if r.Some? { return; }
      }
      var scanned;
      r, scanned := ResolveLegacy(p, plain, lands, now);
      cost := cost + scanned;
    }
  }
}
