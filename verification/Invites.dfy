/**
 Invites and the grants they lead to. Calls are taken one at a time; times are numbers on a clock
 that never runs back. Token hashing is a parameter: `verify(token, hash)`.
 */
module Invites {
  import opened Base

  const UNLIMITED: nat := 1000000
  const SILENT_INVITE_TTL := 604800.0

  datatype Level = View | Edit

  datatype Invite = Invite(
    id: string,
    tokenHash: string,
    doc: string,
    level: Level,
    singleUse: bool,
    usesRemaining: nat,
    createdBy: string,
    createdAt: real,
    expiresAt: Option<real>,
    revokedAt: Option<real>,
    targetEmail: string)

  datatype Target = Target(doc: string, principal: string)

  datatype Grant = Grant(level: Level, grantedBy: string)

  /** Rows in insertion order; grants by document and principal. */
  datatype State = State(invites: seq<Invite>, grants: map<Target, Grant>)

  /** `_level_at_least`. */
  predicate AtLeast(existing: Level, wanted: Level) {
    existing == Edit || wanted == View
  }

  /** The row filter of `resolve_invite`. */
  predicate Live(inv: Invite, now: real) {
    inv.revokedAt.None? && inv.usesRemaining > 0 && (inv.expiresAt.None? || inv.expiresAt.value > now)
  }

  /** `Invite.is_active`. */
  predicate IsActive(inv: Invite, now: real) {
    if inv.revokedAt.Some? then false
    else if inv.usesRemaining <= 0 then false
    else if inv.expiresAt.Some? && now >= inv.expiresAt.value then false
    else true
  }

  function InitialUses(singleUse: bool): nat {
    if singleUse then 1 else UNLIMITED
  }

  // ---------------------------------------------------------------------
  // Accepting
  // ---------------------------------------------------------------------

  /** The first live row whose hash verifies. */
  function Resolve(verify: (string, string) -> bool, invites: seq<Invite>, token: string, now: real): (r: Option<nat>)
    ensures r.Some? ==> r.value < |invites| && Live(invites[r.value], now) && verify(token, invites[r.value].tokenHash)
  {
    if invites == [] then None
    else
      var n := |invites| - 1;
      var before := Resolve(verify, invites[..n], token, now);
      if before.Some? then before
      else if Live(invites[n], now) && verify(token, invites[n].tokenHash) then Some(n)
      else None
  }

  function Spent(inv: Invite): Invite {
    inv.(usesRemaining := if inv.singleUse || inv.usesRemaining == 0 then 0 else inv.usesRemaining - 1)
  }

  function Raised(grants: map<Target, Grant>, inv: Invite, user: string): map<Target, Grant> {
    var t := Target(inv.doc, user);
    if t in grants && AtLeast(grants[t].level, inv.level) then grants else grants[t := Grant(inv.level, inv.createdBy)]
  }

  function Accepted(s: State, i: nat, user: string): State
    requires i < |s.invites|
  {
    State(s.invites[i := Spent(s.invites[i])], Raised(s.grants, s.invites[i], user))
  }

  /** Accepting ends at least at the invite's level and lowers no one's grant, not even the acceptor's own. */
  lemma AcceptNeverLowers(s: State, i: nat, user: string)
    requires i < |s.invites|
    ensures var after, mine := Accepted(s, i, user).grants, Target(s.invites[i].doc, user);
            && mine in after && AtLeast(after[mine].level, s.invites[i].level)
            && (forall t :: t in s.grants ==> t in after && AtLeast(after[t].level, s.grants[t].level))
            && (forall t :: t in after && t != mine ==> t in s.grants && after[t] == s.grants[t])
            && (after[mine].level == Edit <==>
                  s.invites[i].level == Edit || (mine in s.grants && s.grants[mine].level == Edit))
  {
  }

  /** Every token belongs to one invite and verifies against that invite's hash alone. */
  ghost predicate Exact(verify: (string, string) -> bool, invites: seq<Invite>, tokens: map<string, string>) {
    && (forall inv :: inv in invites ==> inv.id in tokens)
    && (forall inv, token :: inv in invites ==> (verify(token, inv.tokenHash) <==> tokens[inv.id] == token))
    && (forall a, b :: a in invites && b in invites && tokens[a.id] == tokens[b.id] ==> a.id == b.id)
  }

  lemma OwnToken(verify: (string, string) -> bool, invites: seq<Invite>, tokens: map<string, string>, i: nat, k: nat)
    requires Exact(verify, invites, tokens) && DistinctIds(invites) && i < |invites| && k < |invites|
    ensures invites[i].id in tokens && (verify(tokens[invites[i].id], invites[k].tokenHash) <==> k == i)
  {
    assert invites[i] in invites && invites[k] in invites;
    if k != i { assert invites[i].id != invites[k].id; }
  }

  lemma ExactPrefix(verify: (string, string) -> bool, invites: seq<Invite>, tokens: map<string, string>, n: nat)
    requires Exact(verify, invites, tokens) && DistinctIds(invites) && n <= |invites|
    ensures Exact(verify, invites[..n], tokens) && DistinctIds(invites[..n])
  {
    assert forall inv :: inv in invites[..n] ==> inv in invites;
  }

  /** With exact hashes, a token resolves exactly when its own invite is active, and then to it. */
  lemma {:induction false} ResolvesToItsInvite(
    verify: (string, string) -> bool, invites: seq<Invite>, tokens: map<string, string>, i: nat, now: real)
    requires Exact(verify, invites, tokens) && DistinctIds(invites) && i < |invites|
    ensures Resolve(verify, invites, tokens[invites[i].id], now) == if IsActive(invites[i], now) then Some(i) else None
  {
    var n := |invites| - 1;
    var token := tokens[invites[i].id];
    var rest := invites[..n];
    forall k | 0 <= k < |invites| ensures verify(token, invites[k].tokenHash) <==> k == i {
      OwnToken(verify, invites, tokens, i, k);
    }
    if i < n {
      ExactPrefix(verify, invites, tokens, n);
      ResolvesToItsInvite(verify, rest, tokens, i, now);
    } else {
      NoneResolves(verify, rest, token, now);
    }
  }

  lemma {:induction false} NoneResolves(verify: (string, string) -> bool, invites: seq<Invite>, token: string, now: real)
    requires forall k :: 0 <= k < |invites| ==> !verify(token, invites[k].tokenHash)
    ensures Resolve(verify, invites, token, now).None?
  {
    if invites != [] {
      assert forall k :: 0 <= k < |invites| - 1 ==> invites[..|invites| - 1][k] == invites[k];
      NoneResolves(verify, invites[..|invites| - 1], token, now);
    }
  }

  lemma {:induction false} ResolvedEarly(verify: (string, string) -> bool, invites: seq<Invite>, token: string, now: real, i: nat)
    requires i < |invites| && Resolve(verify, invites[..i], token, now).None?
    requires Live(invites[i], now) && verify(token, invites[i].tokenHash)
    ensures Resolve(verify, invites, token, now) == Some(i)
    decreases |invites|
  {
    var n := |invites| - 1;
    if i < n {
      assert invites[..n][..i] == invites[..i];
      ResolvedEarly(verify, invites[..n], token, now, i);
    }
  }

  // ---------------------------------------------------------------------
  // What every call keeps
  // ---------------------------------------------------------------------

  ghost predicate DistinctIds(invites: seq<Invite>) {
    forall i, j :: 0 <= i < j < |invites| ==> invites[i].id != invites[j].id
  }

  /** Uses taken and uses left always add up to the uses an invite was created with. */
  ghost predicate Balanced(invites: seq<Invite>, accepted: multiset<string>) {
    forall inv :: inv in invites ==> accepted[inv.id] + inv.usesRemaining == InitialUses(inv.singleUse)
  }

  /** Accepted ids are known ids. */
  ghost predicate Known(invites: seq<Invite>, accepted: multiset<string>) {
    forall id :: id in accepted ==> exists inv :: inv in invites && inv.id == id
  }

  predicate ForEmail(lower: string -> string, inv: Invite, doc: string, email: string) {
    inv.doc == doc && email != "" && lower(inv.targetEmail) == lower(email)
  }

  /** At most one active invite per document and addressee, now and at any later time. */
  ghost predicate OneActive(lower: string -> string, invites: seq<Invite>, clock: real) {
    forall i, j :: 0 <= i < j < |invites| && IsActive(invites[i], clock) && IsActive(invites[j], clock)
      && invites[i].doc == invites[j].doc && lower(invites[i].targetEmail) == lower(invites[j].targetEmail)
      ==> lower(invites[i].targetEmail) == lower("")
  }

  ghost predicate Inv(lower: string -> string, s: State, accepted: multiset<string>, clock: real) {
    DistinctIds(s.invites) && Balanced(s.invites, accepted) && Known(s.invites, accepted) && OneActive(lower, s.invites, clock)
  }

  /** An invite only loses activity as time passes. */
  lemma ActiveEarlier(inv: Invite, now: real, later: real)
    requires now <= later && IsActive(inv, later)
    ensures IsActive(inv, now)
  {
  }

  lemma OneActiveLater(lower: string -> string, invites: seq<Invite>, clock: real, later: real)
    requires OneActive(lower, invites, clock) && clock <= later
    ensures OneActive(lower, invites, later)
  {
    forall i, j | 0 <= i < j < |invites| && IsActive(invites[i], later) && IsActive(invites[j], later)
      && invites[i].doc == invites[j].doc && lower(invites[i].targetEmail) == lower(invites[j].targetEmail)
      ensures lower(invites[i].targetEmail) == lower("")
    {
      ActiveEarlier(invites[i], clock, later);
      ActiveEarlier(invites[j], clock, later);
    }
  }

  lemma InvLater(lower: string -> string, s: State, accepted: multiset<string>, clock: real, later: real)
    requires Inv(lower, s, accepted, clock) && clock <= later
    ensures Inv(lower, s, accepted, later)
  {
    OneActiveLater(lower, s.invites, clock, later);
  }

  /** A row may be replaced by one that is no more active. */
  predicate Weakened(was: Invite, inv: Invite) {
    && inv.id == was.id && inv.doc == was.doc && inv.targetEmail == was.targetEmail
    && inv.singleUse == was.singleUse && inv.expiresAt == was.expiresAt
    && inv.usesRemaining <= was.usesRemaining && (was.revokedAt.Some? ==> inv.revokedAt.Some?)
  }

  lemma WeakenedKeepsOneActive(lower: string -> string, invites: seq<Invite>, clock: real, i: nat, inv: Invite)
    requires OneActive(lower, invites, clock) && i < |invites| && Weakened(invites[i], inv)
    ensures OneActive(lower, invites[i := inv], clock)
  {
    var next := invites[i := inv];
    forall j, k | 0 <= j < k < |next| && IsActive(next[j], clock) && IsActive(next[k], clock)
      && next[j].doc == next[k].doc && lower(next[j].targetEmail) == lower(next[k].targetEmail)
      ensures lower(next[j].targetEmail) == lower("")
    {
      assert IsActive(invites[j], clock) && IsActive(invites[k], clock);
    }
  }

  lemma UpdatedRow(invites: seq<Invite>, i: nat, inv: Invite, x: Invite)
    requires DistinctIds(invites) && i < |invites| && inv.id == invites[i].id
    ensures DistinctIds(invites[i := inv])
    ensures x in invites[i := inv] ==> x == inv || (x in invites && x.id != inv.id)
    ensures inv in invites[i := inv]
  {
    if x in invites[i := inv] {
      var k :| 0 <= k < |invites| && invites[i := inv][k] == x;
      if k != i { assert invites[k] == x; }
    }
    assert invites[i := inv][i] == inv;
  }

  /** Taking a use keeps the books. */
  lemma AcceptOk(lower: string -> string, s: State, accepted: multiset<string>, clock: real, i: nat, user: string)
    requires Inv(lower, s, accepted, clock) && i < |s.invites| && IsActive(s.invites[i], clock)
    ensures Inv(lower, Accepted(s, i, user), accepted + multiset{s.invites[i].id}, clock)
  {
    var inv, next := Spent(s.invites[i]), Accepted(s, i, user).invites;
    var taken := accepted + multiset{inv.id};
    assert s.invites[i] in s.invites;
    WeakenedKeepsOneActive(lower, s.invites, clock, i, inv);
    forall x | x in next ensures taken[x.id] + x.usesRemaining == InitialUses(x.singleUse) {
      UpdatedRow(s.invites, i, inv, x);
    }
    UpdatedRow(s.invites, i, inv, inv);
    forall id | id in taken ensures exists x :: x in next && x.id == id { StillKnown(s.invites, i, inv, accepted, id); }
  }

  lemma StillKnown(invites: seq<Invite>, i: nat, inv: Invite, accepted: multiset<string>, id: string)
    requires Known(invites, accepted) && i < |invites| && inv.id == invites[i].id
    requires id in accepted || id == inv.id
    ensures exists x :: x in invites[i := inv] && x.id == id
  {
    var next := invites[i := inv];
    assert next[i] == inv;
    if id != inv.id {
      var x :| x in invites && x.id == id;
      var k :| 0 <= k < |invites| && invites[k] == x;
      assert next[k] == x;
    }
  }

  lemma RevokeOk(lower: string -> string, s: State, accepted: multiset<string>, clock: real, i: nat, at: real)
    requires Inv(lower, s, accepted, clock) && i < |s.invites|
    ensures Inv(lower, s.(invites := s.invites[i := s.invites[i].(revokedAt := Some(at))]), accepted, clock)
  {
    var inv := s.invites[i].(revokedAt := Some(at));
    var next := s.invites[i := inv];
    assert s.invites[i] in s.invites;
    WeakenedKeepsOneActive(lower, s.invites, clock, i, inv);
    forall x | x in next ensures accepted[x.id] + x.usesRemaining == InitialUses(x.singleUse) {
      UpdatedRow(s.invites, i, inv, x);
    }
    UpdatedRow(s.invites, i, inv, inv);
    forall id | id in accepted ensures exists x :: x in next && x.id == id { StillKnown(s.invites, i, inv, accepted, id); }
  }

  lemma AppendOk(lower: string -> string, s: State, accepted: multiset<string>, clock: real, inv: Invite)
    requires Inv(lower, s, accepted, clock) && (forall x :: x in s.invites ==> x.id != inv.id)
    requires inv.usesRemaining == InitialUses(inv.singleUse)
    requires lower(inv.targetEmail) == lower("")
             || forall x :: x in s.invites && IsActive(x, clock) ==>
                  !(x.doc == inv.doc && lower(x.targetEmail) == lower(inv.targetEmail))
    ensures Inv(lower, s.(invites := s.invites + [inv]), accepted, clock)
  {
    assert inv.id !in accepted;
    KnownAppend(s.invites, inv, accepted);
    OneActiveAppend(lower, s.invites, clock, inv);
  }

  lemma KnownAppend(invites: seq<Invite>, inv: Invite, accepted: multiset<string>)
    requires Known(invites, accepted)
    ensures Known(invites + [inv], accepted)
  {
    forall id | id in accepted ensures exists x :: x in invites + [inv] && x.id == id {
      var x :| x in invites && x.id == id;
      assert x in invites + [inv];
    }
  }

  lemma OneActiveAppend(lower: string -> string, invites: seq<Invite>, clock: real, inv: Invite)
    requires OneActive(lower, invites, clock)
    requires lower(inv.targetEmail) == lower("")
             || forall x :: x in invites && IsActive(x, clock) ==>
                  !(x.doc == inv.doc && lower(x.targetEmail) == lower(inv.targetEmail))
    ensures OneActive(lower, invites + [inv], clock)
  {
    var next := invites + [inv];
    forall i, j | 0 <= i < j < |next| && IsActive(next[i], clock) && IsActive(next[j], clock)
      && next[i].doc == next[j].doc && lower(next[i].targetEmail) == lower(next[j].targetEmail)
      ensures lower(next[i].targetEmail) == lower("")
    {
      if j == |invites| { assert next[i] in invites; }
    }
  }

  /** A single-use invite is accepted at most once, a multi-use one at most as often as it was given uses. */
  lemma AcceptedAtMost(lower: string -> string, s: State, accepted: multiset<string>, clock: real, inv: Invite)
    requires Inv(lower, s, accepted, clock) && inv in s.invites
    ensures accepted[inv.id] <= if inv.singleUse then 1 else 1000000
    ensures accepted[inv.id] == (if inv.singleUse then 1 else 1000000) ==> forall now :: !IsActive(inv, now)
  {
  }

  // ---------------------------------------------------------------------
  // The silent invite
  // ---------------------------------------------------------------------

  /** `find_active_invite_for_email`: the newest of the addressee's active invites. */
  function FindActive(lower: string -> string, invites: seq<Invite>, doc: string, email: string, now: real): (r: Option<Invite>)
    ensures r.Some? ==> r.value in invites && ForEmail(lower, r.value, doc, email) && IsActive(r.value, now)
    ensures r.None? ==> forall inv :: inv in invites && ForEmail(lower, inv, doc, email) ==> !IsActive(inv, now)
  {
    if invites == [] then None
    else
      var n := |invites| - 1;
      var before := FindActive(lower, invites[..n], doc, email, now);
      if ForEmail(lower, invites[n], doc, email) && Live(invites[n], now)
         && (before.None? || before.value.createdAt <= invites[n].createdAt) then Some(invites[n])
      else before
  }

  function SilentInvite(id: string, tokenHash: string, doc: string, level: Level, granter: string, email: string,
                        now: real): Invite {
    Invite(id, tokenHash, doc, level, true, 1, granter, now, Some(now + SILENT_INVITE_TTL), None, email)
  }

  function Invited(lower: string -> string, s: State, inv: Invite, now: real): State {
    if FindActive(lower, s.invites, inv.doc, inv.targetEmail, now).Some? then s
    else s.(invites := s.invites + [inv])
  }

  lemma InvitedOk(lower: string -> string, s: State, accepted: multiset<string>, now: real, inv: Invite)
    requires Inv(lower, s, accepted, now) && inv.targetEmail != ""
    requires inv.usesRemaining == InitialUses(inv.singleUse) && forall x :: x in s.invites ==> x.id != inv.id
    ensures Inv(lower, Invited(lower, s, inv, now), accepted, now)
  {
    if FindActive(lower, s.invites, inv.doc, inv.targetEmail, now).None? {
      AppendOk(lower, s, accepted, now, inv);
    }
  }

  /** With at most one active invite per addressee, a search finds that one. */
  lemma FindsTheOne(lower: string -> string, invites: seq<Invite>, doc: string, email: string, now: real, inv: Invite)
    requires OneActive(lower, invites, now) && lower(email) != lower("")
    requires inv in invites && ForEmail(lower, inv, doc, email) && IsActive(inv, now)
    ensures FindActive(lower, invites, doc, email, now) == Some(inv)
  {
    var found := FindActive(lower, invites, doc, email, now).value;
    var i :| 0 <= i < |invites| && invites[i] == found;
    var j :| 0 <= j < |invites| && invites[j] == inv;
  }

  /**
   After a silent grant the addressee has exactly one active invite, and it carries the level just
   granted exactly when there was none before or the one before already had that level.
   */
  lemma SilentGrantLevelIff(lower: string -> string, s: State, accepted: multiset<string>, now: real, inv: Invite)
    requires Inv(lower, s, accepted, now) && lower(inv.targetEmail) != lower("") && inv.targetEmail != "" && IsActive(inv, now)
    requires inv.usesRemaining == InitialUses(inv.singleUse) && forall x :: x in s.invites ==> x.id != inv.id
    ensures var existing := FindActive(lower, s.invites, inv.doc, inv.targetEmail, now);
            var after := FindActive(lower, Invited(lower, s, inv, now).invites, inv.doc, inv.targetEmail, now);
            && after.Some?
            && (after.value.level == inv.level <==> existing.None? || existing.value.level == inv.level)
    ensures Inv(lower, Invited(lower, s, inv, now), accepted, now)
  {
    InvitedOk(lower, s, accepted, now, inv);
    if FindActive(lower, s.invites, inv.doc, inv.targetEmail, now).None? {
      assert (s.invites + [inv])[|s.invites|] == inv;
      FindsTheOne(lower, s.invites + [inv], inv.doc, inv.targetEmail, now, inv);
    }
  }

  /** Granting "edit" to an address that already holds a "view" invite leaves it with "view". */
  lemma RegrantKeepsOldLevel(lower: string -> string) returns (s: State, inv: Invite, now: real)
    requires lower("a@b") != lower("")
    ensures inv.level == Edit && IsActive(inv, now) && Invited(lower, s, inv, now) == s
    ensures FindActive(lower, s.invites, inv.doc, inv.targetEmail, now).Some?
    ensures FindActive(lower, s.invites, inv.doc, inv.targetEmail, now).value.level == View
  {
    var first := SilentInvite("inv_1", "h1", "d", View, "u", "a@b", 0.0);
    s, inv, now := State([first], map[]), SilentInvite("inv_2", "h2", "d", Edit, "u", "a@b", 1.0), 1.0;
    assert s.invites[..0] == [];
  }

  // ---------------------------------------------------------------------
  // The imperative service
  // ---------------------------------------------------------------------

  /** The first revocation time stays. */
  function RevokedAt(inv: Invite, now: real): Invite {
    if inv.revokedAt.Some? then inv else inv.(revokedAt := Some(now))
  }

  /** With distinct ids, the row found is the only one of its id. */
  lemma RowOfId(invites: seq<Invite>, i: nat)
    requires DistinctIds(invites) && i < |invites|
    ensures invites[i] in invites
    ensures forall x :: x in invites && x.id == invites[i].id ==> x == invites[i]
    ensures forall k :: 0 <= k < |invites| && invites[k].id == invites[i].id ==> k == i
  {
  }

  /** Revoking one row: it is dead for good and no other row changes. */
  lemma RevokedRow(invites: seq<Invite>, i: nat, now: real)
    requires DistinctIds(invites) && i < |invites|
    ensures var next := invites[i := RevokedAt(invites[i], now)];
            && (forall x :: x in next && x.id == invites[i].id ==> x == RevokedAt(invites[i], now) && forall t :: !IsActive(x, t))
            && (invites[i].revokedAt.Some? ==> next == invites)
  {
    var revoked := RevokedAt(invites[i], now);
    forall x | x in invites[i := revoked] && x.id == revoked.id ensures x == revoked { UpdatedRow(invites, i, revoked, x); }
  }

  datatype RevokeError = InviteNotFound | NotCreator

  /** What the caller of a grant by email is told. */
  datatype GrantAnswer = GrantAnswer(doc: string, principalId: string, level: Level, grantedBy: string, grantedAt: real)

  /** Not revoked, not used up, not expired, and this is its token. */
  predicate Opens(verify: (string, string) -> bool, inv: Invite, token: string, now: real) {
    && inv.revokedAt.None? && inv.usesRemaining > 0 && (inv.expiresAt.None? || now < inv.expiresAt.value)
    && verify(token, inv.tokenHash)
  }

  /** One use less, and the user's grant raised to the invite's level, from its creator, unless it was as high already. */
  ghost predicate TookOne(s: State, i: nat, user: string, s': State, g: Grant)
    requires i < |s.invites|
  {
    var inv := s.invites[i];
    var mine := Target(inv.doc, user);
    && inv.usesRemaining > 0
    && s'.invites == s.invites[i := inv.(usesRemaining := inv.usesRemaining - 1)]
    && s'.grants == s.grants[mine := g]
    && (mine in s.grants && (s.grants[mine].level == Edit || inv.level == View) ==> g == s.grants[mine])
    && (mine !in s.grants || (s.grants[mine].level == View && inv.level == Edit) ==> g == Grant(inv.level, inv.createdBy))
  }

  lemma AcceptTakesOne(s: State, accepted: multiset<string>, i: nat, user: string)
    requires Balanced(s.invites, accepted) && i < |s.invites| && s.invites[i].usesRemaining > 0
    ensures var after, mine := Accepted(s, i, user), Target(s.invites[i].doc, user);
            mine in after.grants && TookOne(s, i, user, after, after.grants[mine])
  {
    assert s.invites[i] in s.invites;
  }

  class InviteService {
    const verify: (string, string) -> bool
    const lower: string -> string
    const syntheticId: string -> string
    var invites: seq<Invite>
    var grants: map<Target, Grant>
    ghost var accepted: multiset<string>
    ghost var clock: real

    ghost function Rows(): State
      reads this
    {
      State(invites, grants)
    }

    ghost predicate Valid()
      reads this
    {
      Inv(lower, Rows(), accepted, clock)
    }

    constructor (verify: (string, string) -> bool, lower: string -> string, syntheticId: string -> string, now: real)
      ensures Valid() && invites == [] && grants == map[] && accepted == multiset{} && clock == now
      ensures this.verify == verify && this.lower == lower && this.syntheticId == syntheticId
    {
      this.verify, this.lower, this.syntheticId := verify, lower, syntheticId;
      invites, grants, accepted, clock := [], map[], multiset{}, now;
    }

    /** A public link: single-use, or as good as unlimited, with an optional expiry. */
    method CreateInvite(id: string, tokenHash: string, doc: string, createdBy: string, level: Level,
                        singleUse: bool, expiresAt: Option<real>, now: real)
      requires Valid() && clock <= now && forall x :: x in invites ==> x.id != id
      modifies this
      ensures Valid() && clock == now && grants == old(grants) && accepted == old(accepted)
      ensures invites == old(invites) + [Invite(id, tokenHash, doc, level, singleUse, if singleUse then 1 else 1000000,
                                                createdBy, now, expiresAt, None, "")]
    {
      InvLater(lower, Rows(), accepted, clock, now);
      clock := now;
      var usesRemaining := if singleUse then 1 else UNLIMITED;
      var inv := Invite(id, tokenHash, doc, level, singleUse, usesRemaining, createdBy, now, expiresAt, None, "");
      AppendOk(lower, Rows(), accepted, now, inv);
      invites := invites + [inv];
    }

    /** A scan over the live rows, verifying each. */
    method ResolveInvite(token: string, now: real) returns (found: Option<nat>)
      ensures found == if token == "" then None else Resolve(verify, invites, token, now)
      ensures found.Some? ==> found.value < |invites| && token != "" && Opens(verify, invites[found.value], token, now)
      ensures found.None? && token != "" ==> forall inv :: inv in invites ==> !Opens(verify, inv, token, now)
    {
      if token == "" { return None; }
      for i := 0 to |invites|
        invariant Resolve(verify, invites[..i], token, now).None?
        invariant forall k :: 0 <= k < i ==> !Opens(verify, invites[k], token, now)
      {
        assert invites[..i + 1][..i] == invites[..i];
        if Live(invites[i], now) && verify(token, invites[i].tokenHash) {
          assert Opens(verify, invites[i], token, now);
          ResolvedEarly(verify, invites, token, now, i);
          if IsActive(invites[i], now) { return Some(i); }
          return None;
        }
      }
      assert invites[..|invites|] == invites;
      found := None;
    }

    /** One use is taken even when the grant is already high enough. */
    method AcceptInvite(token: string, user: string, now: real) returns (r: Option<Grant>)
      requires Valid() && clock <= now
      modifies this
      ensures Valid() && clock == now
      ensures r.None? <==> token == "" || Resolve(verify, old(invites), token, now).None?
      ensures r.None? ==> Rows() == old(Rows()) && accepted == old(accepted)
      ensures r.Some? ==>
                var i := Resolve(verify, old(invites), token, now).value;
                && Rows() == Accepted(old(Rows()), i, user)
                && accepted == old(accepted) + multiset{old(invites)[i].id}
                && r.value == grants[Target(old(invites)[i].doc, user)]
      ensures r.None? ==> token == "" || forall inv :: inv in old(invites) ==> !Opens(verify, inv, token, now)
      ensures r.Some? ==>
                token != "" && exists i :: 0 <= i < |old(invites)| && TookOne(old(Rows()), i, user, Rows(), r.value)
                                           && Opens(verify, old(invites)[i], token, now)
    {
      InvLater(lower, Rows(), accepted, clock, now);
      clock := now;
      var found := ResolveInvite(token, now);
      if found.None? { return None; }
      AcceptOk(lower, Rows(), accepted, now, found.value, user);
      AcceptTakesOne(Rows(), accepted, found.value, user);
      var g := Take(found.value, user);
      r := Some(g);
    }

    /** The writes of an acceptance: the use first, then the grant if it is too low. */
    method Take(i: nat, user: string) returns (g: Grant)
      requires i < |invites| && invites[i].usesRemaining > 0
      modifies this`invites, this`grants, this`accepted
      ensures Rows() == Accepted(old(Rows()), i, user)
      ensures accepted == old(accepted) + multiset{old(invites)[i].id}
      ensures Target(old(invites)[i].doc, user) in grants && g == grants[Target(old(invites)[i].doc, user)]
    {
      var inv := invites[i];
      var newRemaining := if inv.singleUse then 0 else if inv.usesRemaining - 1 > 0 then inv.usesRemaining - 1 else 0;
      invites := invites[i := inv.(usesRemaining := newRemaining)];
      accepted := accepted + multiset{inv.id};
      var target := Target(inv.doc, user);
      if target !in grants || !AtLeast(grants[target].level, inv.level) {
        grants := grants[target := Grant(inv.level, inv.createdBy)];
      }
      g := grants[target];
    }

    /** Only the creator may revoke; revoking again changes nothing. */
    method RevokeInvite(id: string, owner: string, now: real) returns (r: Result<bool, RevokeError>)
      requires Valid() && clock <= now
      modifies this
      ensures Valid() && clock == now && grants == old(grants) && accepted == old(accepted)
      ensures r == Err(InviteNotFound) <==> forall x :: x in old(invites) ==> x.id != id
      ensures r == Err(NotCreator) <==> exists x :: x in old(invites) && x.id == id && x.createdBy != owner
      ensures r.Err? ==> invites == old(invites)
      ensures r.Ok? ==> forall x :: x in invites && x.id == id ==> forall t :: !IsActive(x, t)
      ensures |invites| == |old(invites)|
      ensures r.Ok? ==> forall i :: 0 <= i < |invites| && old(invites)[i].id == id ==>
                && (old(invites)[i].revokedAt.Some? ==> invites[i] == old(invites)[i] && !r.value)
                && (old(invites)[i].revokedAt.None? ==> invites[i] == old(invites)[i].(revokedAt := Some(now)) && r.value)
      ensures forall i :: 0 <= i < |invites| && old(invites)[i].id != id ==> invites[i] == old(invites)[i]
    {
      InvLater(lower, Rows(), accepted, clock, now);
      clock := now;
      var i := Find(id);
      if i == |invites| { return Err(InviteNotFound); }
      RowOfId(invites, i);
      var inv := invites[i];
      if inv.createdBy != owner { return Err(NotCreator); }
      RevokedRow(invites, i, now);
      if inv.revokedAt.Some? { return Ok(false); }
      RevokeOk(lower, Rows(), accepted, now, i, now);
      invites := invites[i := inv.(revokedAt := Some(now))];
      r := Ok(true);
    }

    method Find(id: string) returns (i: nat)
      ensures i <= |invites| && (i < |invites| ==> invites[i].id == id)
      ensures i == |invites| ==> forall x :: x in invites ==> x.id != id
    {
      i := 0;
      while i < |invites| && invites[i].id != id
        invariant 0 <= i <= |invites|
        invariant forall k :: 0 <= k < i ==> invites[k].id != id
      {
        i := i + 1;
      }
    }

    /**
     Granting to an address without an account: reuse its active invite, else create one. The answer
     depends on the request alone, not on which of the two happened nor on the invite's level.
     */
    method GrantViaInvite(id: string, tokenHash: string, doc: string, email: string, level: Level, granter: string, now: real)
      returns (answer: GrantAnswer, created: bool)
      requires Valid() && clock <= now && lower(email) != lower("") && email != ""
      requires forall x :: x in invites ==> x.id != id
      modifies this
      ensures Valid() && clock == now && accepted == old(accepted)
      ensures answer == GrantAnswer(doc, syntheticId(email), level, granter, now)
      ensures created <==> FindActive(lower, old(invites), doc, email, now).None?
      ensures Rows() == Invited(lower, old(Rows()), SilentInvite(id, tokenHash, doc, level, granter, email, now), now)
      ensures grants == old(grants)
      ensures created ==>
                invites == old(invites) + [Invite(id, tokenHash, doc, level, true, 1, granter, now, Some(now + 604800.0),
                                                  None, email)]
      ensures !created ==> invites == old(invites)
      ensures created <==> forall inv :: inv in old(invites) && inv.doc == doc && lower(inv.targetEmail) == lower(email) ==>
                inv.revokedAt.Some? || inv.usesRemaining == 0 || (inv.expiresAt.Some? && inv.expiresAt.value <= now)
    {
      InvLater(lower, Rows(), accepted, clock, now);
      clock := now;
      answer := GrantAnswer(doc, syntheticId(email), level, granter, now);
      var existing := FindActive(lower, invites, doc, email, now);
      created := existing.None?;
      var inv := SilentInvite(id, tokenHash, doc, level, granter, email, now);
      InvitedOk(lower, Rows(), accepted, now, inv);
      if created {
        invites := invites + [inv];
      }
    }
  }
}
