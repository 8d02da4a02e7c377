/**
 Single-use magic links with garbage collection of the consumption rows. Calls are serial. Each
 call reads the clock twice: once inside the signature check, once for the table. Times are whole
 seconds. Ids are fresh at issue, so an id stands for one issue time.
 */
module MagicLink {
  import opened Base

  /** What the signature layer finds in a token. */
  datatype Token =
    | Forged
    | NotAnObject(issuedAt: int)
    | Payload(issuedAt: int, email: Option<string>, jti: Option<string>)

  datatype Error = LinkExpired | InvalidLink | InvalidPayload | AlreadyUsed

  datatype Row = Row(email: string, consumedAt: int)

  datatype Call = Call(token: Token, checkedAt: int, now: int)

  /** The signature layer accepts ages 0 through `maxAge`. */
  predicate Fresh(issuedAt: int, checkedAt: int, maxAge: nat) {
    0 <= checkedAt - issuedAt <= maxAge
  }

  /** Why a token is refused before the table is looked at. */
  function Refusal(c: Call, maxAge: nat): Option<Error> {
    if c.token.Forged? then Some(InvalidLink)
    else if !Fresh(c.token.issuedAt, c.checkedAt, maxAge) then Some(LinkExpired)
    else if c.token.NotAnObject? || c.token.email.None? || c.token.jti.None? then Some(InvalidPayload)
    else None
  }

  function Collected(consumed: map<string, Row>, cutoff: int): map<string, Row> {
    map j | j in consumed && consumed[j].consumedAt >= cutoff :: consumed[j]
  }

  function Consumed(consumed: map<string, Row>, c: Call, maxAge: nat): (map<string, Row>, Result<string, Error>) {
    if Refusal(c, maxAge).Some? then (consumed, Err(Refusal(c, maxAge).value))
    else
      var kept := Collected(consumed, c.now - maxAge);
      var jti, email := c.token.jti.value, c.token.email.value;
      if jti in kept then (kept, Err(AlreadyUsed)) else (kept[jti := Row(email, c.now)], Ok(email))
  }

  class MagicLinks {
    var consumed: map<string, Row>

    constructor ()
      ensures consumed == map[]
    {
      consumed := map[];
    }

    /** Check, collect old rows, insert unless present. */
    method Consume(token: Token, checkedAt: int, now: int, maxAge: nat) returns (r: Result<string, Error>)
      modifies this
      ensures (consumed, r) == Consumed(old(consumed), Call(token, checkedAt, now), maxAge)
      ensures r == Err(InvalidLink) <==> token.Forged?
      ensures r == Err(LinkExpired) <==> !token.Forged? && !(0 <= checkedAt - token.issuedAt <= maxAge)
      ensures r == Err(InvalidPayload) <==>
                !token.Forged? && 0 <= checkedAt - token.issuedAt <= maxAge
                && (token.NotAnObject? || token.email.None? || token.jti.None?)
      ensures r == Err(AlreadyUsed) <==>
                && token.Payload? && 0 <= checkedAt - token.issuedAt <= maxAge && token.email.Some? && token.jti.Some?
                && token.jti.value in old(consumed) && old(consumed)[token.jti.value].consumedAt >= now - maxAge
      ensures r.Ok? ==>
                && token.Payload? && token.email == Some(r.value) && token.jti.Some?
                && token.jti.value in consumed && consumed[token.jti.value] == Row(r.value, now)
      ensures r.Err? && r.error != AlreadyUsed ==> consumed == old(consumed)
      ensures r.Ok? || r == Err(AlreadyUsed) ==>
                forall j :: !(r.Ok? && Some(j) == token.jti) ==>
                  && (j in consumed <==> j in old(consumed) && old(consumed)[j].consumedAt >= now - maxAge)
                  && (j in consumed ==> consumed[j] == old(consumed)[j])
    {
      if token.Forged? { return Err(InvalidLink); }
      if !Fresh(token.issuedAt, checkedAt, maxAge) { return Err(LinkExpired); }
      if token.NotAnObject? { return Err(InvalidPayload); }
      if token.email.None? || token.jti.None? { return Err(InvalidPayload); }
      var cutoff := now - maxAge;
      consumed := Collected(consumed, cutoff);
      var before := |consumed|;
      if token.jti.value !in consumed {
        consumed := consumed[token.jti.value := Row(token.email.value, now)];
      }
      if |consumed| == before { return Err(AlreadyUsed); }
      r := Ok(token.email.value);
    }
  }

  // ---------------------------------------------------------------------
  // Runs
  // ---------------------------------------------------------------------

  function TableAfter(calls: seq<Call>, maxAge: nat): map<string, Row> {
    if calls == [] then map[]
    else Consumed(TableAfter(calls[..|calls| - 1], maxAge), calls[|calls| - 1], maxAge).0
  }

  predicate AcceptedAt(calls: seq<Call>, maxAge: nat, i: nat)
    requires i < |calls|
  {
    Consumed(TableAfter(calls[..i], maxAge), calls[i], maxAge).1.Ok?
  }

  predicate Names(c: Call, jti: string) {
    c.token.Payload? && c.token.jti == Some(jti)
  }

  /** Serial calls on a clock that never runs back. */
  predicate InOrder(calls: seq<Call>) {
    && (forall c :: c in calls ==> c.checkedAt <= c.now)
    && (forall i, j :: 0 <= i < j < |calls| ==> calls[i].now <= calls[j].checkedAt)
  }

  /** An id is issued once. */
  ghost predicate IssuedOnce(calls: seq<Call>) {
    forall c, d, jti :: c in calls && d in calls && Names(c, jti) && Names(d, jti) ==> c.token.issuedAt == d.token.issuedAt
  }

  /** The clock reading of the last acceptance of `jti`. */
  function LastAccepted(calls: seq<Call>, maxAge: nat, jti: string): Option<int> {
    if calls == [] then None
    else
      var n := |calls| - 1;
      if Names(calls[n], jti) && AcceptedAt(calls, maxAge, n) then Some(calls[n].now)
      else LastAccepted(calls[..n], maxAge, jti)
  }

  /** A row is missing only if its id was never accepted, or more than `maxAge` before `clock`. */
  ghost predicate Tells(table: map<string, Row>, jti: string, last: Option<int>, clock: int, maxAge: nat) {
    && (jti in table ==> last == Some(table[jti].consumedAt))
    && (jti !in table && last.Some? ==> clock > last.value + maxAge)
  }

  lemma TellsStep(table: map<string, Row>, jti: string, last: Option<int>, clock: int, c: Call, maxAge: nat)
    requires Tells(table, jti, last, clock, maxAge) && clock <= c.now
    ensures var (next, r) := Consumed(table, c, maxAge);
            Tells(next, jti, if Names(c, jti) && r.Ok? then Some(c.now) else last, c.now, maxAge)
  {
  }

  lemma {:induction false} RowsTellAcceptances(calls: seq<Call>, maxAge: nat, jti: string)
    requires InOrder(calls)
    ensures Tells(TableAfter(calls, maxAge), jti, LastAccepted(calls, maxAge, jti),
                  if calls == [] then 0 else calls[|calls| - 1].now, maxAge)
  {
    if calls != [] {
      var n := |calls| - 1;
      InOrderPrefix(calls, n);
      RowsTellAcceptances(calls[..n], maxAge, jti);
      assert calls[n] in calls;
      var clock := if n == 0 then calls[0].now else calls[..n][n - 1].now;
      TellsStep(TableAfter(calls[..n], maxAge), jti, LastAccepted(calls[..n], maxAge, jti), clock, calls[n], maxAge);
    }
  }

  lemma InOrderPrefix(calls: seq<Call>, n: nat)
    requires InOrder(calls) && n <= |calls|
    ensures InOrder(calls[..n])
  {
    forall c | c in calls[..n] ensures c.checkedAt <= c.now { assert c in calls; }
  }

  /**
   After an acceptance at clock reading `last`, the same link is accepted again exactly when its
   signature still passes and the table reading is more than `maxAge` after `last`.
   */
  lemma AcceptedAgainIff(calls: seq<Call>, maxAge: nat, i: nat, jti: string, last: int)
    requires InOrder(calls) && i < |calls| && Names(calls[i], jti)
    requires LastAccepted(calls[..i], maxAge, jti) == Some(last)
    ensures AcceptedAt(calls, maxAge, i) <==> Refusal(calls[i], maxAge).None? && calls[i].now > last + maxAge
  {
    InOrderPrefix(calls, i);
    RowsTellAcceptances(calls[..i], maxAge, jti);
    assert calls[i] in calls;
    assert i > 0 ==> calls[..i][i - 1].now <= calls[i].now;
  }

  /**
   Every answer, from the calls before it: what is wrong with the token is told first; then an id accepted
   within the last `maxAge` seconds has been used; else the answer is the email in the token.
   */
  lemma EveryAnswer(calls: seq<Call>, maxAge: nat, i: nat)
    requires InOrder(calls) && i < |calls|
    ensures var c, r := calls[i], Consumed(TableAfter(calls[..i], maxAge), calls[i], maxAge).1;
            if c.token.Forged? then r == Err(InvalidLink)
            else if !(0 <= c.checkedAt - c.token.issuedAt <= maxAge) then r == Err(LinkExpired)
            else if !(c.token.Payload? && c.token.email.Some? && c.token.jti.Some?) then r == Err(InvalidPayload)
            else
              var last := LastAccepted(calls[..i], maxAge, c.token.jti.value);
              r == if last.Some? && c.now <= last.value + maxAge then Err(AlreadyUsed) else Ok(c.token.email.value)
  {
    var c := calls[i];
    if c.token.Payload? && c.token.jti.Some? {
      InOrderPrefix(calls, i);
      RowsTellAcceptances(calls[..i], maxAge, c.token.jti.value);
      assert c in calls;
      assert i > 0 ==> calls[..i][i - 1].now <= c.now;
    }
  }

  lemma {:induction false} SomeAcceptance(calls: seq<Call>, maxAge: nat, jti: string, i: nat)
    requires i < |calls| && Names(calls[i], jti) && AcceptedAt(calls, maxAge, i)
    ensures LastAccepted(calls, maxAge, jti).Some?
  {
    var n := |calls| - 1;
    if i < n {
      assert calls[..n][..i] == calls[..i];
      SomeAcceptance(calls[..n], maxAge, jti, i);
    }
  }

  /** The last acceptance was one: its link named the id and was fresh then. */
  lemma {:induction false} LastWasAccepted(calls: seq<Call>, maxAge: nat, jti: string)
    requires LastAccepted(calls, maxAge, jti).Some?
    ensures exists k :: 0 <= k < |calls| && Names(calls[k], jti) && Refusal(calls[k], maxAge).None?
                        && calls[k].now == LastAccepted(calls, maxAge, jti).value
  {
    var n := |calls| - 1;
    if !(Names(calls[n], jti) && AcceptedAt(calls, maxAge, n)) {
      LastWasAccepted(calls[..n], maxAge, jti);
      var k :| 0 <= k < n && Names(calls[..n][k], jti) && Refusal(calls[..n][k], maxAge).None?
               && calls[..n][k].now == LastAccepted(calls, maxAge, jti).value;
      assert calls[k] == calls[..n][k];
    }
  }

  /**
   Two acceptances of one link need the clock to advance inside the later call, from at most
   `issuedAt + maxAge` at the signature check to more than that at the table.
   */
  lemma ReplayNeedsATick(calls: seq<Call>, maxAge: nat, i: nat, j: nat, jti: string)
    requires InOrder(calls) && IssuedOnce(calls) && i < j < |calls|
    requires Names(calls[i], jti) && Names(calls[j], jti)
    requires AcceptedAt(calls, maxAge, i) && AcceptedAt(calls, maxAge, j)
    ensures calls[j].checkedAt <= calls[j].token.issuedAt + maxAge < calls[j].now
  {
    var before := calls[..j];
    assert before[..i] == calls[..i];
    SomeAcceptance(before, maxAge, jti, i);
    LastWasAccepted(before, maxAge, jti);
    var last := LastAccepted(before, maxAge, jti).value;
    var k :| 0 <= k < j && Names(before[k], jti) && Refusal(before[k], maxAge).None? && before[k].now == last;
    assert calls[k] in calls && calls[j] in calls;
    AcceptedAgainIff(calls, maxAge, j, jti, last);
  }

  /** When each call sees one second, every link is accepted at most once, although rows are deleted. */
  lemma SingleUse(calls: seq<Call>, maxAge: nat, i: nat, j: nat, jti: string)
    requires InOrder(calls) && IssuedOnce(calls) && i < j < |calls|
    requires Names(calls[i], jti) && Names(calls[j], jti) && AcceptedAt(calls, maxAge, i)
    requires calls[j].checkedAt == calls[j].now
    ensures !AcceptedAt(calls, maxAge, j)
  {
    if AcceptedAt(calls, maxAge, j) { ReplayNeedsATick(calls, maxAge, i, j, jti); }
  }

  /**
   When the clock ticks at most once inside a call, a second use goes through exactly in this case: the
   link was used in the very second of its issue, and presented again in its last valid second with the
   tick falling between the two readings.
   */
  lemma ReplayIff(calls: seq<Call>, maxAge: nat, i: nat, j: nat, jti: string)
    requires InOrder(calls) && IssuedOnce(calls) && i < j < |calls|
    requires Names(calls[i], jti) && Names(calls[j], jti) && AcceptedAt(calls, maxAge, i)
    requires LastAccepted(calls[..j], maxAge, jti) == Some(calls[i].now)
    requires calls[j].now <= calls[j].checkedAt + 1
    requires calls[j].token.email.Some?
    ensures AcceptedAt(calls, maxAge, j)
            <==> && calls[i].now == calls[i].token.issuedAt
                 && calls[j].checkedAt == calls[j].token.issuedAt + maxAge
                 && calls[j].now == calls[j].checkedAt + 1
  {
    assert calls[i] in calls && calls[j] in calls;
    AcceptedAgainIff(calls, maxAge, j, jti, calls[i].now);
  }

  /** The first presentation of a good link is accepted. */
  lemma FirstUseSucceeds(calls: seq<Call>, maxAge: nat, i: nat, jti: string)
    requires InOrder(calls) && i < |calls| && Names(calls[i], jti) && Refusal(calls[i], maxAge).None?
    requires forall k :: 0 <= k < i && Names(calls[k], jti) ==> !AcceptedAt(calls, maxAge, k)
    ensures AcceptedAt(calls, maxAge, i)
  {
    InOrderPrefix(calls, i);
    RowsTellAcceptances(calls[..i], maxAge, jti);
    if LastAccepted(calls[..i], maxAge, jti).Some? {
      NeverAccepted(calls, maxAge, i, jti);
    }
  }

  lemma {:induction false} NeverAccepted(calls: seq<Call>, maxAge: nat, n: nat, jti: string)
    requires n <= |calls|
    requires forall k :: 0 <= k < n && Names(calls[k], jti) ==> !AcceptedAt(calls, maxAge, k)
    ensures LastAccepted(calls[..n], maxAge, jti).None?
  {
    if n > 0 {
      assert calls[..n][..n - 1] == calls[..n - 1];
      NeverAccepted(calls, maxAge, n - 1, jti);
    }
  }

  /** Such a run, for every validity period. */
  lemma ReplayExists(maxAge: nat) returns (calls: seq<Call>)
    ensures InOrder(calls) && IssuedOnce(calls) && |calls| == 2 && calls[0].token == calls[1].token
    ensures AcceptedAt(calls, maxAge, 0) && AcceptedAt(calls, maxAge, 1)
  {
    var link := Payload(0, Some("a@b"), Some("j"));
    calls := [Call(link, 0, 0), Call(link, maxAge, maxAge + 1)];
    assert calls[..0] == [] && calls[..1] == [calls[0]];
    assert TableAfter(calls[..1], maxAge) == map["j" := Row("a@b", 0)] by {
      assert calls[..1][..0] == [];
    }
  }
}
