/**
 Access rules over documents and grants, and the calls that change them: publishing, granting,
 revoking, visibility, deletion, and creating and accepting invites. Each call is one atomic step;
 share tokens come from a generator that never repeats itself.
 */
module Access {
  import opened Base
  import opened TokenCache
  import opened Invites

  datatype Doc = Doc(owner: Option<string>, isPublic: bool, shareToken: string)

  datatype GrantRow = GrantRow(kind: Kind, level: Level)

  /** What an invite row lets its bearer become; whether it is still active is decided in `Invites`. */
  datatype Invitation = Invitation(doc: string, level: Level)

  /** The documents, grants and invites tables. */
  datatype Tables = Tables(docs: map<string, Doc>, grants: map<Target, GrantRow>, invites: map<string, Invitation>)

  datatype Action = ToView | ToEdit | ToOwn

  /** Why access was given. */
  datatype Reason = AsOwner | ByGrant(level: Level) | AsPublic

  datatype Denial = NotFound | PermissionDenied

  /** `_LEVEL_TO_MAX_ACTION`. */
  predicate Permits(level: Level, action: Action) {
    match level
    case View => action == ToView
    case Edit => action == ToView || action == ToEdit
  }

  /** Only users have an owner identity. */
  function OwnerIdentity(p: Principal): Option<string> {
    if p.kind == User then Some(p.id) else None
  }

  /** `check_permission`, rule by rule. */
  function CheckPermission(t: Tables, p: Principal, doc: string, action: Action): (r: Result<Reason, Denial>) {
    if doc !in t.docs then Err(NotFound)
    else
      var d := t.docs[doc];
      if d.owner.Some? && OwnerIdentity(p) == d.owner then Ok(AsOwner)
      else if Target(doc, p.id) in t.grants then
        var level := t.grants[Target(doc, p.id)].level;
        if Permits(level, action) then Ok(ByGrant(level)) else Err(PermissionDenied)
      else if p.kind == Agent && p.userId.Some? && d.owner == p.userId then
        if action == ToView then Ok(AsOwner)
        else if action == ToEdit then Ok(AsOwner)
        else Err(PermissionDenied)
      else if p.kind == Agent && p.userId.Some? && Target(doc, p.userId.value) in t.grants
              && t.grants[Target(doc, p.userId.value)].kind == User then
        var inherited := t.grants[Target(doc, p.userId.value)].level;
        if action == ToView then Ok(ByGrant(inherited))
        else if action == ToEdit then if inherited == Edit then Ok(ByGrant(Edit)) else Err(PermissionDenied)
        else Err(PermissionDenied)
      else if d.isPublic then
        if action == ToView then Ok(AsPublic) else Err(PermissionDenied)
      else Err(NotFound)
  }

  /** `user_can_view`. */
  predicate UserCanView(t: Tables, doc: string, user: string)
    requires doc in t.docs
  {
    || t.docs[doc].isPublic
    || t.docs[doc].owner == Some(user)
    || Target(doc, user) in t.grants
  }

  /** `get_document_by_token`: what the share link reaches. */
  predicate TokenReaches(t: Tables, token: string, doc: string) {
    doc in t.docs && t.docs[doc].shareToken == token
  }

  // ---------------------------------------------------------------------
  // What the rules amount to
  // ---------------------------------------------------------------------

  /** A principal's standing on a document, as one number. */
  function Rank(action: Action): int {
    match action case ToView => 1 case ToEdit => 2 case ToOwn => 3
  }

  function LevelRank(level: Level): int {
    match level case View => 1 case Edit => 2
  }

  function GrantRank(t: Tables, doc: string, principal: string): int {
    if Target(doc, principal) in t.grants then LevelRank(t.grants[Target(doc, principal)].level) else 0
  }

  /** What a user-owned agent has from its owner: never more than edit. */
  function InheritedRank(t: Tables, p: Principal, doc: string): int
    requires doc in t.docs
  {
    if p.kind != Agent || p.userId.None? then 0
    else if t.docs[doc].owner == p.userId then 2
    else if Target(doc, p.userId.value) in t.grants && t.grants[Target(doc, p.userId.value)].kind == User
    then GrantRank(t, doc, p.userId.value)
    else 0
  }

  /** The first source that says anything decides: ownership, own grant, inheritance, publicity. */
  function Standing(t: Tables, p: Principal, doc: string): int {
    if doc !in t.docs then 0
    else if p.kind == User && t.docs[doc].owner == Some(p.id) then 3
    else if GrantRank(t, doc, p.id) > 0 then GrantRank(t, doc, p.id)
    else if InheritedRank(t, p, doc) > 0 then InheritedRank(t, p, doc)
    else if t.docs[doc].isPublic then 1
    else 0
  }

  /**
   Every answer follows from the standing: allowed up to it, NotFound without one, denied above it.
   */
  lemma StandingDecides(t: Tables, p: Principal, doc: string, action: Action)
    ensures CheckPermission(t, p, doc, action).Ok? <==> Rank(action) <= Standing(t, p, doc)
    ensures CheckPermission(t, p, doc, action) == Err(NotFound) <==> Standing(t, p, doc) == 0
  {
  }

  /** Owner implies edit implies view; NotFound does not depend on the action; viewing is never merely denied. */
  lemma AllowedIsDownwardClosed(t: Tables, p: Principal, doc: string, a: Action, b: Action)
    ensures CheckPermission(t, p, doc, a).Ok? && Rank(b) <= Rank(a) ==> CheckPermission(t, p, doc, b).Ok?
    ensures CheckPermission(t, p, doc, a) == Err(NotFound) <==> CheckPermission(t, p, doc, b) == Err(NotFound)
    ensures CheckPermission(t, p, doc, ToView) != Err(PermissionDenied)
  {
    StandingDecides(t, p, doc, a);
    StandingDecides(t, p, doc, b);
    StandingDecides(t, p, doc, ToView);
  }

  /** Ownership is for the owning user alone: no agent, no grant and no publicity gives it. */
  lemma OnlyTheOwnerOwns(t: Tables, p: Principal, doc: string)
    ensures CheckPermission(t, p, doc, ToOwn).Ok?
            <==> doc in t.docs && p.kind == User && t.docs[doc].owner == Some(p.id)
  {
    StandingDecides(t, p, doc, ToOwn);
  }

  /** The two view checks agree on users. */
  lemma ViewChecksAgree(t: Tables, p: Principal, doc: string)
    requires doc in t.docs && p.kind == User
    ensures UserCanView(t, doc, p.id) <==> CheckPermission(t, p, doc, ToView).Ok?
  {
    StandingDecides(t, p, doc, ToView);
  }

  /** What a user is told, and why. */
  lemma UserAnswer(t: Tables, p: Principal, doc: string, action: Action)
    requires p.kind == User && doc in t.docs
    ensures var answer := CheckPermission(t, p, doc, action);
            if t.docs[doc].owner == Some(p.id) then answer == Ok(AsOwner)
            else if Target(doc, p.id) in t.grants then
              var level := t.grants[Target(doc, p.id)].level;
              answer == if action == ToView || (action == ToEdit && level == Edit) then Ok(ByGrant(level))
                        else Err(PermissionDenied)
            else if t.docs[doc].isPublic then answer == if action == ToView then Ok(AsPublic) else Err(PermissionDenied)
            else answer == Err(NotFound)
  {
  }

  /**
   A user's agent without a grant of its own is answered as its user, the reason included, when it asks to
   view or edit, as long as the user's grant is a user grant; it never passes for the owner.
   */
  lemma AgentsInherit(t: Tables, p: Principal, user: Principal, doc: string, action: Action)
    requires p.kind == Agent && user.kind == User && p.userId == Some(user.id) && Target(doc, p.id) !in t.grants
    requires Target(doc, user.id) in t.grants ==> t.grants[Target(doc, user.id)].kind == User
    ensures action != ToOwn ==> CheckPermission(t, p, doc, action) == CheckPermission(t, user, doc, action)
    ensures CheckPermission(t, p, doc, ToOwn).Err?
  {
  }

  /**
   An owner's grant to a user reaches that user and its agents without grants of their own: to view, and to
   edit exactly at level "edit".
   */
  lemma GrantReachesAgents(t: Tables, caller: Principal, p: Principal, user: Principal, doc: string, level: Level)
    requires CheckPermission(t, caller, doc, ToOwn).Ok? && t.docs[doc].owner != Some(user.id)
    requires user.kind == User && (p == user || (p.kind == Agent && p.userId == Some(user.id) && Target(doc, p.id) !in t.grants))
    ensures var after := Do(t, Op.Grant(caller, doc, user.id, User, level));
            && CheckPermission(after, p, doc, ToView) == Ok(ByGrant(level))
            && (CheckPermission(after, p, doc, ToEdit).Ok? <==> level == Edit)
            && CheckPermission(after, p, doc, ToOwn) == Err(PermissionDenied)
  {
  }

  // ---------------------------------------------------------------------
  // The calls
  // ---------------------------------------------------------------------

  function Published(t: Tables, id: string, owner: Option<string>, isPublic: bool, token: string): Tables {
    t.(docs := t.docs[id := Doc(owner, isPublic, token)])
  }

  function Granted(t: Tables, doc: string, principal: string, kind: Kind, level: Level): Tables {
    t.(grants := t.grants[Target(doc, principal) := GrantRow(kind, level)])
  }

  /** Delete the grant; if there was one and the document is private, the share token changes too. */
  function Revoked(t: Tables, doc: string, principal: string, token: string): Tables {
    var deleted := Target(doc, principal) in t.grants;
    var rotated := deleted && doc in t.docs && !t.docs[doc].isPublic;
    t.(docs := if rotated then t.docs[doc := t.docs[doc].(shareToken := token)] else t.docs,
       grants := t.grants - {Target(doc, principal)})
  }

  /** Going from public to private changes the share token. */
  function Exposed(t: Tables, doc: string, isPublic: bool, token: string): Tables
    requires doc in t.docs
  {
    var d := t.docs[doc];
    t.(docs := t.docs[doc := Doc(d.owner, isPublic, if d.isPublic && !isPublic then token else d.shareToken)])
  }

  /** Deleting a document takes its grants along; its invites stay. */
  function Deleted(t: Tables, doc: string): Tables {
    t.(docs := t.docs - {doc}, grants := map g | g in t.grants && g.doc != doc :: t.grants[g])
  }

  function Invited(t: Tables, invite: string, doc: string, level: Level): Tables {
    t.(invites := t.invites[invite := Invitation(doc, level)])
  }

  /** `accept_invite` asks nobody but the invite, and raises a grant or leaves it. */
  function Admitted(t: Tables, inv: Invitation, user: string): Tables {
    var target := Target(inv.doc, user);
    if target in t.grants && AtLeast(t.grants[target].level, inv.level) then t
    else Granted(t, inv.doc, user, User, inv.level)
  }

  /** Each document has its own share token. */
  ghost predicate OwnTokens(docs: map<string, Doc>) {
    forall c, d :: c in docs && d in docs && c != d ==> docs[c].shareToken != docs[d].shareToken
  }

  /** Every token in use was handed out: `used` are all tokens ever handed out. */
  ghost predicate TokensOk(t: Tables, used: set<string>) {
    OwnTokens(t.docs) && forall d :: d in t.docs ==> t.docs[d].shareToken in used
  }

  /**
   After a revoke on a private document the user, and every agent that had its access from the user,
   reach nothing; and when there was a grant to delete, neither does the old share link.
   */
  lemma RevokeCutsOff(t: Tables, used: set<string>, doc: string, user: string, p: Principal, token: string, action: Action)
    requires TokensOk(t, used) && token !in used
    requires doc in t.docs && !t.docs[doc].isPublic && t.docs[doc].owner != Some(user)
    requires (p.kind == User && p.id == user)
             || (p.kind == Agent && p.userId == Some(user) && Target(doc, p.id) !in t.grants)
    ensures var after := Revoked(t, doc, user, token);
            && CheckPermission(after, p, doc, action) == Err(NotFound)
            && !UserCanView(after, doc, user)
            && (Target(doc, user) in t.grants ==> forall d :: !TokenReaches(after, t.docs[doc].shareToken, d))
  {
    StandingDecides(Revoked(t, doc, user, token), p, doc, action);
  }

  /** Nobody else is affected: not other documents, nor principals with neither the grant nor its inheritance. */
  lemma RevokeIsScoped(t: Tables, doc: string, user: string, p: Principal, other: string, token: string, action: Action)
    requires other != doc || (p.id != user && p.userId != Some(user))
             || (p.kind == User && doc in t.docs && t.docs[doc].owner == Some(p.id))
    ensures CheckPermission(Revoked(t, doc, user, token), p, other, action) == CheckPermission(t, p, other, action)
  {
  }

  /** A revoke that finds no grant leaves the link alive; the user never had access of their own. */
  lemma RevokeOfNothing(t: Tables, doc: string, user: string, token: string)
    requires Target(doc, user) !in t.grants
    ensures Revoked(t, doc, user, token) == t
  {
    assert t.grants - {Target(doc, user)} == t.grants;
  }

  /**
   A revoke leaves invites alone: the revoked user is back exactly by accepting an invite to that very
   document, then at the invite's level.
   */
  lemma InvitesOutliveRevoke(t: Tables, doc: string, p: Principal, token: string, inv: Invitation, action: Action)
    requires doc in t.docs && !t.docs[doc].isPublic && p.kind == User && t.docs[doc].owner != Some(p.id)
    ensures var after := Admitted(Revoked(t, doc, p.id, token), inv, p.id);
            && after.invites == t.invites
            && (CheckPermission(after, p, doc, action).Ok? <==> inv.doc == doc && Rank(action) <= LevelRank(inv.level))
  {
    StandingDecides(Admitted(Revoked(t, doc, p.id, token), inv, p.id), p, doc, action);
  }

  /** Closing a public document kills its public link; every other change of visibility keeps the link. */
  lemma ClosingKillsTheLink(t: Tables, used: set<string>, doc: string, isPublic: bool, token: string)
    requires TokensOk(t, used) && token !in used && doc in t.docs
    ensures var was := t.docs[doc].shareToken;
            (forall d :: !TokenReaches(Exposed(t, doc, isPublic, token), was, d)) <==> t.docs[doc].isPublic && !isPublic
  {
    var was, after := t.docs[doc].shareToken, Exposed(t, doc, isPublic, token);
    if !(t.docs[doc].isPublic && !isPublic) {
      assert TokenReaches(after, was, doc);
    } else {
      forall d ensures !TokenReaches(after, was, d) {
        if d in t.docs && d != doc { assert t.docs[d].shareToken != was; }
      }
    }
  }

  /**
   A grant to a principal other than the owning user sets its standing to exactly the granted level,
   so it takes edit away exactly when "view" is granted to someone who had edit: an agent that could
   edit through its owner is cut down to viewing by a direct "view" grant.
   */
  lemma GrantSetsStanding(t: Tables, doc: string, p: Principal, level: Level)
    requires doc in t.docs && !(p.kind == User && t.docs[doc].owner == Some(p.id))
    ensures var after := Granted(t, doc, p.id, p.kind, level);
            && Standing(after, p, doc) == LevelRank(level)
            && ((CheckPermission(t, p, doc, ToEdit).Ok? && !CheckPermission(after, p, doc, ToEdit).Ok?)
                <==> level == View && (GrantRank(t, doc, p.id) == 2
                                       || (GrantRank(t, doc, p.id) == 0 && InheritedRank(t, p, doc) == 2)))
  {
    StandingDecides(t, p, doc, ToEdit);
    StandingDecides(Granted(t, doc, p.id, p.kind, level), p, doc, ToEdit);
  }

  lemma ViewGrantLowersAgent() returns (t: Tables, p: Principal, doc: string)
    ensures p.kind == Agent && CheckPermission(t, p, doc, ToEdit).Ok?
    ensures CheckPermission(Granted(t, doc, p.id, p.kind, View), p, doc, ToEdit) == Err(PermissionDenied)
  {
    doc := "d";
    p := Principal("agt_1", Agent, None, false, Some("usr_1"));
    t := Tables(map[doc := Doc(Some("usr_1"), false, "t")], map[], map[]);
  }

  // ---------------------------------------------------------------------
  // Runs
  // ---------------------------------------------------------------------

  datatype Op =
    | Publish(id: string, owner: Option<string>, isPublic: bool, token: string)
    | Grant(caller: Principal, doc: string, principal: string, kind: Kind, level: Level)
    | Revoke(caller: Principal, doc: string, principal: string, token: string)
    | SetVisibility(caller: Principal, doc: string, isPublic: bool, token: string)
    | Delete(caller: Principal, doc: string)
    | CreateInvite(caller: Principal, invite: string, doc: string, level: Level)
    | Accept(invite: string, user: string, active: bool)

  /** Owner actions of callers who are not the owner change nothing, nor does an invite that is not active. */
  function Do(t: Tables, op: Op): Tables {
    match op
    case Publish(id, owner, isPublic, token) => if id in t.docs then t else Published(t, id, owner, isPublic, token)
    case Grant(caller, doc, principal, kind, level) =>
      if CheckPermission(t, caller, doc, ToOwn).Ok? then Granted(t, doc, principal, kind, level) else t
    case Revoke(caller, doc, principal, token) =>
      if CheckPermission(t, caller, doc, ToOwn).Ok? then Revoked(t, doc, principal, token) else t
    case SetVisibility(caller, doc, isPublic, token) =>
      if CheckPermission(t, caller, doc, ToOwn).Ok? then Exposed(t, doc, isPublic, token) else t
    case Delete(caller, doc) =>
      if CheckPermission(t, caller, doc, ToOwn).Ok? then Deleted(t, doc) else t
    case CreateInvite(caller, invite, doc, level) =>
      if invite !in t.invites && CheckPermission(t, caller, doc, ToOwn).Ok? then Invited(t, invite, doc, level) else t
    case Accept(invite, user, active) =>
      if active && invite in t.invites then Admitted(t, t.invites[invite], user) else t
  }

  function Run(ops: seq<Op>): Tables {
    if ops == [] then Tables(map[], map[], map[]) else Do(Run(ops[..|ops| - 1]), ops[|ops| - 1])
  }

  /** Tokens an operation may hand out. */
  function Tokens(op: Op): set<string> {
    if op.Publish? || op.Revoke? || op.SetVisibility? then {op.token} else {}
  }

  function UsedTokens(ops: seq<Op>): set<string> {
    if ops == [] then {} else UsedTokens(ops[..|ops| - 1]) + Tokens(ops[|ops| - 1])
  }

  /** The generator never repeats a token. */
  ghost predicate FreshTokens(ops: seq<Op>) {
    ops == [] || (FreshTokens(ops[..|ops| - 1]) && Tokens(ops[|ops| - 1]) !! UsedTokens(ops[..|ops| - 1]))
  }

  lemma {:induction false} RunKeepsTokensOk(ops: seq<Op>)
    requires FreshTokens(ops)
    ensures TokensOk(Run(ops), UsedTokens(ops))
  {
    if ops != [] {
      RunKeepsTokensOk(ops[..|ops| - 1]);
      DoKeepsTokensOk(Run(ops[..|ops| - 1]), ops[|ops| - 1], UsedTokens(ops[..|ops| - 1]));
    }
  }

  lemma DoKeepsTokensOk(t: Tables, op: Op, used: set<string>)
    requires TokensOk(t, used) && Tokens(op) !! used
    ensures TokensOk(Do(t, op), used + Tokens(op))
  {
  }

  /** A share link that has stopped working never works again. */
  lemma {:induction false} DeadLinksStayDead(ops: seq<Op>, n: nat, token: string)
    requires FreshTokens(ops) && n <= |ops| && token in UsedTokens(ops[..n])
    requires forall d :: !TokenReaches(Run(ops[..n]), token, d)
    ensures forall d :: !TokenReaches(Run(ops), token, d)
    ensures token in UsedTokens(ops)
    decreases |ops|
  {
    if n < |ops| {
      var m := |ops| - 1;
      assert ops[..m][..n] == ops[..n];
      DeadLinksStayDead(ops[..m], n, token);
      DeadStep(Run(ops[..m]), ops[m], token);
    } else {
      assert ops[..n] == ops;
    }
  }

  lemma DeadStep(t: Tables, op: Op, token: string)
    requires token !in Tokens(op) && forall d :: !TokenReaches(t, token, d)
    ensures forall d :: !TokenReaches(Do(t, op), token, d)
  {
    forall d ensures !TokenReaches(Do(t, op), token, d) {
      assert !TokenReaches(t, token, d);
    }
  }

  predicate ByOwner(t: Tables, caller: Principal, doc: string) {
    CheckPermission(t, caller, doc, ToOwn).Ok?
  }

  /** In state `t`, `op` is an owner's grant to this principal. */
  predicate Grants(t: Tables, op: Op, doc: string, principal: string) {
    op.Grant? && op.doc == doc && op.principal == principal && ByOwner(t, op.caller, doc)
  }

  /** In state `t`, `op` is this principal accepting an active invite to the document. */
  predicate Admits(t: Tables, op: Op, doc: string, principal: string) {
    && op.Accept? && op.active && op.user == principal
    && op.invite in t.invites && t.invites[op.invite].doc == doc
  }

  /** In state `t`, `op` is an owner's revoke of this principal, or the deletion of the document. */
  predicate Takes(t: Tables, op: Op, doc: string, principal: string) {
    || (op.Revoke? && op.doc == doc && op.principal == principal && ByOwner(t, op.caller, doc))
    || (op.Delete? && op.doc == doc && ByOwner(t, op.caller, doc))
  }

  /** A grant sets the level, an accepted invite raises it, a revoke or deletion ends it. */
  function LevelAfter(t: Tables, op: Op, doc: string, principal: string, had: Option<Level>): Option<Level> {
    if Grants(t, op, doc, principal) then Some(op.level)
    else if Takes(t, op, doc, principal) then None
    else if Admits(t, op, doc, principal) then
      if had == Some(Edit) then had else Some(t.invites[op.invite].level)
    else had
  }

  /** The level a principal has by grants, read off the calls. */
  function LastGrant(ops: seq<Op>, doc: string, principal: string): Option<Level> {
    if ops == [] then None
    else
      var before := ops[..|ops| - 1];
      LevelAfter(Run(before), ops[|ops| - 1], doc, principal, LastGrant(before, doc, principal))
  }

  function GrantLevel(t: Tables, doc: string, principal: string): Option<Level> {
    if Target(doc, principal) in t.grants then Some(t.grants[Target(doc, principal)].level) else None
  }

  lemma GrantStep(t: Tables, op: Op, doc: string, principal: string)
    ensures GrantLevel(Do(t, op), doc, principal) == LevelAfter(t, op, doc, principal, GrantLevel(t, doc, principal))
  {
  }

  lemma {:induction false} GrantsFollowHistory(ops: seq<Op>, doc: string, principal: string)
    ensures LastGrant(ops, doc, principal) == GrantLevel(Run(ops), doc, principal)
  {
    if ops != [] {
      GrantsFollowHistory(ops[..|ops| - 1], doc, principal);
      GrantStep(Run(ops[..|ops| - 1]), ops[|ops| - 1], doc, principal);
    }
  }

  /** Who owns a document and whether it is public. */
  datatype Posture = Posture(owner: Option<string>, isPublic: bool)

  predicate Owns(p: Principal, s: Option<Posture>) {
    s.Some? && p.kind == User && s.value.owner == Some(p.id)
  }

  /** Read off the calls: as published, then as its owner last asked, until its owner deletes it. */
  function LastAsked(ops: seq<Op>, doc: string): Option<Posture> {
    if ops == [] then None
    else
      var was := LastAsked(ops[..|ops| - 1], doc);
      match ops[|ops| - 1]
      case Publish(id, owner, isPublic, _) => if id == doc && was.None? then Some(Posture(owner, isPublic)) else was
      case SetVisibility(caller, d, isPublic, _) =>
        if d == doc && Owns(caller, was) then Some(was.value.(isPublic := isPublic)) else was
      case Delete(caller, d) => if d == doc && Owns(caller, was) then None else was
      case _ => was
  }

  /** In every reachable state a document is public exactly as last asked for, and belongs to whom it was published for. */
  lemma {:induction false} DocsFollowHistory(ops: seq<Op>, doc: string)
    ensures LastAsked(ops, doc).Some? <==> doc in Run(ops).docs
    ensures doc in Run(ops).docs ==>
              LastAsked(ops, doc) == Some(Posture(Run(ops).docs[doc].owner, Run(ops).docs[doc].isPublic))
  {
    if ops != [] {
      var n := |ops| - 1;
      DocsFollowHistory(ops[..n], doc);
      OwnsIffByOwner(Run(ops[..n]), ops[n], LastAsked(ops[..n], doc), doc);
    }
  }

  lemma OwnsIffByOwner(t: Tables, op: Op, s: Option<Posture>, doc: string)
    requires s == if doc in t.docs then Some(Posture(t.docs[doc].owner, t.docs[doc].isPublic)) else None
    ensures (op.SetVisibility? || op.Delete?) && op.doc == doc ==>
              (Owns(op.caller, s) <==> CheckPermission(t, op.caller, doc, ToOwn).Ok?)
  {
    if op.SetVisibility? || op.Delete? { OnlyTheOwnerOwns(t, op.caller, doc); }
  }

  /** A share link changes exactly when its owner closes the public document, or revokes an existing grant on the private one. */
  lemma LinkStep(t: Tables, op: Op, doc: string)
    requires doc in t.docs && doc in Do(t, op).docs
    ensures var closes := op.SetVisibility? && op.doc == doc && t.docs[doc].isPublic && !op.isPublic;
            var revokes := op.Revoke? && op.doc == doc && !t.docs[doc].isPublic && Target(doc, op.principal) in t.grants;
            Do(t, op).docs[doc].shareToken
            == if (closes || revokes) && ByOwner(t, op.caller, doc) then op.token else t.docs[doc].shareToken
  {
  }

  /** No call takes an invite row away or changes it, not even deleting the document. */
  lemma InvitesStay(t: Tables, op: Op, invite: string)
    requires invite in t.invites
    ensures invite in Do(t, op).invites && Do(t, op).invites[invite] == t.invites[invite]
  {
  }

  /** In state `t`, `op` is an owner creating this very invite. */
  predicate Makes(t: Tables, op: Op, invite: string, inv: Invitation) {
    op.CreateInvite? && op.invite == invite && Invitation(op.doc, op.level) == inv && ByOwner(t, op.caller, op.doc)
  }

  lemma InviteStep(t: Tables, op: Op, invite: string)
    requires invite in Do(t, op).invites
    ensures (invite in t.invites && Do(t, op).invites[invite] == t.invites[invite])
            || Makes(t, op, invite, Do(t, op).invites[invite])
  {
  }

  /** Every invite was created by an owner of its document, at the level it carries. */
  lemma {:induction false} InvitesComeFromOwners(ops: seq<Op>, invite: string) returns (i: nat)
    requires invite in Run(ops).invites
    ensures i < |ops| && Makes(Run(ops[..i]), ops[i], invite, Run(ops).invites[invite])
  {
    i := |ops| - 1;
    InviteStep(Run(ops[..i]), ops[i], invite);
    if !Makes(Run(ops[..i]), ops[i], invite, Run(ops).invites[invite]) {
      var n := i;
      i := InvitesComeFromOwners(ops[..n], invite);
      assert ops[..n][..i] == ops[..i];
    }
  }

  /** The `i`th call gave the principal something: an owner's grant, or an invite an owner had made. */
  predicate Gave(ops: seq<Op>, i: nat, doc: string, principal: string)
    requires i < |ops|
  {
    Grants(Run(ops[..i]), ops[i], doc, principal) || Admits(Run(ops[..i]), ops[i], doc, principal)
  }

  predicate Took(ops: seq<Op>, i: nat, doc: string, principal: string)
    requires i < |ops|
  {
    Takes(Run(ops[..i]), ops[i], doc, principal)
  }

  /** Nothing was taken from the principal after the `i`th call. */
  predicate KeptSince(ops: seq<Op>, i: nat, doc: string, principal: string) {
    forall j: nat :: i < j < |ops| ==> !Took(ops, j, doc, principal)
  }

  /** One call further: something is held if this call gave it, or it was held and not taken. */
  lemma HeldStep(ops: seq<Op>, doc: string, principal: string)
    requires ops != []
    ensures var n := |ops| - 1;
            LastGrant(ops, doc, principal).Some?
            <==> Gave(ops, n, doc, principal) || (LastGrant(ops[..n], doc, principal).Some? && !Took(ops, n, doc, principal))
  {
  }

  lemma PrefixCalls(ops: seq<Op>, i: nat, doc: string, principal: string)
    requires i + 1 < |ops|
    ensures Gave(ops[..|ops| - 1], i, doc, principal) == Gave(ops, i, doc, principal)
    ensures Took(ops[..|ops| - 1], i, doc, principal) == Took(ops, i, doc, principal)
  {
    assert ops[..|ops| - 1][..i] == ops[..i];
  }

  /** A level held by grants goes back to a call that gave it, with no revoke or deletion since. */
  lemma {:induction false} HeldWasGiven(ops: seq<Op>, doc: string, principal: string) returns (i: nat)
    requires LastGrant(ops, doc, principal).Some?
    ensures i < |ops| && Gave(ops, i, doc, principal) && KeptSince(ops, i, doc, principal)
  {
    i := |ops| - 1;
    HeldStep(ops, doc, principal);
    if !Gave(ops, i, doc, principal) {
      var n := i;
      i := HeldWasGiven(ops[..n], doc, principal);
      PrefixCalls(ops, i, doc, principal);
      forall j: nat | i < j < |ops| ensures !Took(ops, j, doc, principal) {
        if j < n { PrefixCalls(ops, j, doc, principal); }
      }
    }
  }

  /** And whatever was given and not taken since is held. */
  lemma {:induction false} GivenIsHeld(ops: seq<Op>, i: nat, doc: string, principal: string)
    requires i < |ops| && Gave(ops, i, doc, principal) && KeptSince(ops, i, doc, principal)
    ensures LastGrant(ops, doc, principal).Some?
    decreases |ops|
  {
    var n := |ops| - 1;
    HeldStep(ops, doc, principal);
    if i < n {
      PrefixCalls(ops, i, doc, principal);
      forall j: nat | i < j < n ensures !Took(ops[..n], j, doc, principal) { PrefixCalls(ops, j, doc, principal); }
      GivenIsHeld(ops[..n], i, doc, principal);
    }
  }

  lemma StandingByGrant(t: Tables, p: Principal, doc: string)
    requires p.kind == User && doc in t.docs && !t.docs[doc].isPublic
    ensures CheckPermission(t, p, doc, ToView).Ok? <==> t.docs[doc].owner == Some(p.id) || GrantLevel(t, doc, p.id).Some?
    ensures CheckPermission(t, p, doc, ToEdit).Ok?
            <==> t.docs[doc].owner == Some(p.id) || GrantLevel(t, doc, p.id) == Some(Edit)
  {
    StandingDecides(t, p, doc, ToView);
    StandingDecides(t, p, doc, ToEdit);
  }

  /**
   In every reachable state a user sees a private document exactly as its owner, or when some owner's
   grant or accepted invite gave access and no later call took it; and edits it exactly as its owner or
   when the level so held is "edit".
   */
  lemma UsersSeeWhatOwnersGave(ops: seq<Op>, doc: string, p: Principal)
    requires p.kind == User && doc in Run(ops).docs && !Run(ops).docs[doc].isPublic
    ensures CheckPermission(Run(ops), p, doc, ToView).Ok?
            <==> || Run(ops).docs[doc].owner == Some(p.id)
                 || exists i: nat :: i < |ops| && Gave(ops, i, doc, p.id) && KeptSince(ops, i, doc, p.id)
    ensures CheckPermission(Run(ops), p, doc, ToEdit).Ok?
            <==> Run(ops).docs[doc].owner == Some(p.id) || LastGrant(ops, doc, p.id) == Some(Edit)
  {
    GrantsFollowHistory(ops, doc, p.id);
    StandingByGrant(Run(ops), p, doc);
    if LastGrant(ops, doc, p.id).Some? {
      var i := HeldWasGiven(ops, doc, p.id);
    }
    forall i: nat | i < |ops| && Gave(ops, i, doc, p.id) && KeptSince(ops, i, doc, p.id)
      ensures LastGrant(ops, doc, p.id).Some?
    {
      GivenIsHeld(ops, i, doc, p.id);
    }
  }

  // ---------------------------------------------------------------------
  // The imperative service
  // ---------------------------------------------------------------------

  class AccessService {
    var docs: map<string, Doc>
    var grants: map<Target, GrantRow>
    var invites: map<string, Invitation>
    ghost var used: set<string>

    ghost function State(): Tables
      reads this
    {
      Tables(docs, grants, invites)
    }

    ghost predicate Valid()
      reads this
    {
      TokensOk(State(), used)
    }

    constructor ()
      ensures Valid() && docs == map[] && grants == map[] && invites == map[] && used == {}
    {
      docs, grants, invites, used := map[], map[], map[], {};
    }

    method PublishDoc(id: string, owner: Option<string>, isPublic: bool, token: string)
      requires Valid() && id !in docs && token !in used
      modifies this
      ensures Valid() && used == old(used) + {token}
      ensures State() == Do(old(State()), Publish(id, owner, isPublic, token))
      ensures docs == old(docs)[id := Doc(owner, isPublic, token)] && unchanged(`grants, `invites)
    {
      docs := docs[id := Doc(owner, isPublic, token)];
      used := used + {token};
    }

    /** Owner only; an upsert. */
    method GrantTo(caller: Principal, doc: string, principal: string, kind: Kind, level: Level)
      returns (r: Result<GrantRow, Denial>)
      requires Valid()
      modifies this`grants
      ensures Valid()
      ensures State() == Do(old(State()), Op.Grant(caller, doc, principal, kind, level))
      ensures r.Ok? ==> grants == old(grants)[Target(doc, principal) := GrantRow(kind, level)]
      ensures r == match CheckPermission(old(State()), caller, doc, ToOwn)
                   case Ok(_) => Ok(GrantRow(kind, level))
                   case Err(e) => Err(e)
    {
      var checked := CheckPermission(Tables(docs, grants, invites), caller, doc, ToOwn);
      if checked.Err? { return Err(checked.error); }
      grants := grants[Target(doc, principal) := GrantRow(kind, level)];
      r := Ok(grants[Target(doc, principal)]);
    }

    /** Owner only; delete, then rotate the token if a grant went and the document is private. */
    method RevokeFrom(caller: Principal, doc: string, principal: string, token: string)
      returns (r: Result<bool, Denial>)
      requires Valid() && token !in used
      modifies this
      ensures Valid() && used == old(used) + {token}
      ensures State() == Do(old(State()), Revoke(caller, doc, principal, token))
      ensures r == match CheckPermission(old(State()), caller, doc, ToOwn)
                   case Ok(_) => Ok(Target(doc, principal) in old(grants))
                   case Err(e) => Err(e)
    {
      ghost var t := State();
      DoKeepsTokensOk(t, Revoke(caller, doc, principal, token), used);
      used := used + {token};
      var checked := CheckPermission(Tables(docs, grants, invites), caller, doc, ToOwn);
      if checked.Err? { return Err(checked.error); }
      var deleted := Target(doc, principal) in grants;
      grants := grants - {Target(doc, principal)};
      if deleted {
        if doc in docs && !docs[doc].isPublic {
          docs := docs[doc := docs[doc].(shareToken := token)];
        }
      }
      assert State() == Revoked(t, doc, principal, token);
      r := Ok(deleted);
    }

    /** Owner only. */
    method DeleteDoc(caller: Principal, doc: string) returns (r: Result<bool, Denial>)
      requires Valid()
      modifies this`docs, this`grants
      ensures Valid()
      ensures State() == Do(old(State()), Delete(caller, doc))
      ensures r == match CheckPermission(old(State()), caller, doc, ToOwn)
                   case Ok(_) => Ok(doc in old(docs))
                   case Err(e) => Err(e)
    {
      DoKeepsTokensOk(State(), Delete(caller, doc), used);
      var checked := CheckPermission(Tables(docs, grants, invites), caller, doc, ToOwn);
      if checked.Err? { return Err(checked.error); }
      r := Ok(doc in docs);
      grants := map g | g in grants && g.doc != doc :: grants[g];
      docs := docs - {doc};
    }

    /** Owner only; remember the prior visibility, write the new one, rotate on public to private. */
    method SetDocVisibility(caller: Principal, doc: string, isPublic: bool, token: string)
      returns (r: Result<Doc, Denial>)
      requires Valid() && token !in used
      modifies this
      ensures Valid() && used == old(used) + {token}
      ensures State() == Do(old(State()), SetVisibility(caller, doc, isPublic, token))
      ensures r.Ok? <==> CheckPermission(old(State()), caller, doc, ToOwn).Ok?
      ensures r.Ok? ==>
                && doc in old(docs) && docs == old(docs)[doc := r.value] && unchanged(`grants, `invites)
                && var was := old(docs)[doc];
                   r.value == Doc(was.owner, isPublic, if was.isPublic && !isPublic then token else was.shareToken)
    {
      ghost var t := State();
      DoKeepsTokensOk(t, SetVisibility(caller, doc, isPublic, token), used);
      used := used + {token};
      var checked := CheckPermission(Tables(docs, grants, invites), caller, doc, ToOwn);
      if checked.Err? { return Err(checked.error); }
      WriteVisibility(doc, isPublic, token);
      r := Ok(docs[doc]);
    }

    /** The writes: the flag, then a new token if the document was public and is not any more. */
    method WriteVisibility(doc: string, isPublic: bool, token: string)
      requires doc in docs
      modifies this`docs
      ensures docs == Exposed(old(State()), doc, isPublic, token).docs
    {
      var prior := docs[doc];
      docs := docs[doc := prior.(isPublic := isPublic)];
      if prior.isPublic && !isPublic {
        docs := docs[doc := docs[doc].(shareToken := token)];
      }
    }

    /** Owner only; the row the invite link stands for. */
    method MakeInvite(caller: Principal, invite: string, doc: string, level: Level) returns (r: Result<Invitation, Denial>)
      requires Valid() && invite !in invites
      modifies this`invites
      ensures Valid()
      ensures State() == Do(old(State()), CreateInvite(caller, invite, doc, level))
      ensures r.Ok? ==> invites == old(invites)[invite := Invitation(doc, level)]
      ensures r == match CheckPermission(old(State()), caller, doc, ToOwn)
                   case Ok(_) => Ok(Invitation(doc, level))
                   case Err(e) => Err(e)
    {
      var checked := CheckPermission(Tables(docs, grants, invites), caller, doc, ToOwn);
      if checked.Err? { return Err(checked.error); }
      invites := invites[invite := Invitation(doc, level)];
      r := Ok(invites[invite]);
    }

    /** The grant part of accepting: a high enough grant stays, otherwise an upsert as a user grant. */
    method AcceptInvite(invite: string, user: string, active: bool) returns (r: Option<GrantRow>)
      requires Valid()
      modifies this`grants
      ensures Valid()
      ensures State() == Do(old(State()), Accept(invite, user, active))
      ensures r.Some? <==> active && invite in invites
      ensures r.None? ==> unchanged(this)
      ensures r.Some? ==>
                var inv := invites[invite];
                var mine := Target(inv.doc, user);
                && grants == old(grants)[mine := r.value]
                && (mine in old(grants) && (old(grants)[mine].level == Edit || inv.level == View) ==>
                      r.value == old(grants)[mine])
                && (mine !in old(grants) || (old(grants)[mine].level == View && inv.level == Edit) ==>
                      r.value == GrantRow(User, inv.level))
    {
      if !active || invite !in invites { return None; }
      var inv := invites[invite];
      var target := Target(inv.doc, user);
      if target in grants {
        if AtLeast(grants[target].level, inv.level) { return Some(grants[target]); }
      }
      grants := grants[target := GrantRow(User, inv.level)];
      r := Some(grants[target]);
    }
  }
}
