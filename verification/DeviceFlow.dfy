/**
 Device authorization (the polling rules of section 3.5 of RFC 8628). Each call is one atomic step;
 times are seconds, stored truncated to whole seconds as the ISO text in the table is.
 */
module DeviceFlow {
  import opened Base

  const DEVICE_CODE_TTL_SECONDS := 600.0
  const SLOW_DOWN_WINDOW_SECONDS := 5.0
  const MAX_FAILED_CONFIRMS: nat := 5
  const USER_CODE_ALPHABET := "BCDFGHJKMNPQRSTVWXYZ23456789"
  const USER_CODE_LENGTH: nat := 8
  const CANDIDATES: nat := 10

  datatype Status = Pending | Authorized | Expired | Denied

  datatype Row = Row(
    userCode: string,
    status: Status,
    user: Option<string>,
    invite: Option<string>,
    createdAt: real,
    expiresAt: real,
    polledLast: Option<real>,
    authorizedAt: Option<real>,
    consumedAt: Option<real>,
    failedConfirms: nat)

  datatype PollAnswer = NotFound | SlowDown | StillPending | Token(user: string) | HasExpired | WasDenied

  datatype ConfirmAnswer = Bound | Refused(reason: Status) | NoSuchCode

  /** `_iso` keeps whole seconds only. */
  function Iso(t: real): (r: real)
    ensures r <= t < r + 1.0
  {
    t.Floor as real
  }

  function NewRow(userCode: string, invite: Option<string>, now: real): Row {
    Row(userCode, Pending, None, invite, Iso(now), Iso(now + DEVICE_CODE_TTL_SECONDS), None, None, None, 0)
  }

  function Polled(row: Row, now: real): (Row, PollAnswer) {
    if row.polledLast.Some? && now - row.polledLast.value < SLOW_DOWN_WINDOW_SECONDS then (row, SlowDown)
    else if row.consumedAt.Some? then (row, HasExpired)
    else if now >= row.expiresAt then (row.(status := Expired), HasExpired)
    else match row.status
      case Expired => (row, HasExpired)
      case Denied => (row, WasDenied)
      case Pending => (row.(polledLast := Some(Iso(now))), StillPending)
      case Authorized =>
        if row.user.None? then (row, HasExpired)
        else (row.(consumedAt := Some(Iso(now)), polledLast := Some(Iso(now))), Token(row.user.value))
  }

  /** `_bump_and_maybe_lock`. */
  function Bumped(row: Row, reason: Status): (Row, ConfirmAnswer) {
    var counted := row.(failedConfirms := row.failedConfirms + 1);
    if counted.failedConfirms >= MAX_FAILED_CONFIRMS && row.status == Pending
    then (counted.(status := Expired), Refused(Expired))
    else (counted, Refused(reason))
  }

  function Confirmed(row: Row, user: string, now: real): (Row, ConfirmAnswer) {
    if now >= row.expiresAt then Bumped(row, Expired)
    else if row.status != Pending then Bumped(row, row.status)
    else (row.(status := Authorized, user := Some(user), authorizedAt := Some(Iso(now))), Bound)
  }

  // ---------------------------------------------------------------------
  // The life of one row
  // ---------------------------------------------------------------------

  datatype Event = Poll(now: real) | Confirm(now: real, user: string)

  function After(row: Row, events: seq<Event>): Row {
    if events == [] then row
    else Next(After(row, events[..|events| - 1]), events[|events| - 1])
  }

  function Next(row: Row, e: Event): Row {
    match e
    case Poll(now) => Polled(row, now).0
    case Confirm(now, user) => Confirmed(row, user, now).0
  }

  function RowBefore(row: Row, events: seq<Event>, i: nat): Row
    requires i <= |events|
  {
    After(row, events[..i])
  }

  function PollAnswerAt(row: Row, events: seq<Event>, i: nat): PollAnswer
    requires i < |events| && events[i].Poll?
  {
    Polled(RowBefore(row, events, i), events[i].now).1
  }

  function ConfirmAnswerAt(row: Row, events: seq<Event>, i: nat): ConfirmAnswer
    requires i < |events| && events[i].Confirm?
  {
    Confirmed(RowBefore(row, events, i), events[i].user, events[i].now).1
  }

  /** The clock never runs backwards. */
  predicate InOrder(events: seq<Event>) {
    forall i, j :: 0 <= i < j < |events| ==> events[i].now <= events[j].now
  }

  /** A row as `start` inserts it. */
  ghost predicate Started(row: Row) {
    exists code, invite, now :: row == NewRow(code, invite, now)
  }

  // What a run amounts to, told without looking at the row.

  /** The user of the first confirmation that came before the expiry. */
  function Binder(expiresAt: real, events: seq<Event>): Option<string> {
    if events == [] then None
    else
      var e := events[|events| - 1];
      var before := Binder(expiresAt, events[..|events| - 1]);
      if before.None? && e.Confirm? && e.now < expiresAt then Some(e.user) else before
  }

  /** Is a poll answered `pending` or with a token? These are the polls that are written down. */
  predicate Heard(answer: PollAnswer) {
    answer.StillPending? || answer.Token?
  }

  /** What a row must look like after `events`. */
  ghost predicate Explains(start: Row, events: seq<Event>, row: Row) {
    && row.expiresAt == start.expiresAt
    && row.user == Binder(start.expiresAt, events)
    && (row.status == Pending ==> row.user.None? && row.consumedAt.None?)
    && (row.status == Authorized ==> row.user.Some?)
    && (row.status == Expired ==> row.consumedAt.None? && events != [] && events[|events| - 1].now >= start.expiresAt)
    && row.status != Denied
    && (row.failedConfirms > 0 && row.status == Pending ==> events != [] && events[|events| - 1].now >= start.expiresAt)
  }

  lemma {:induction false} RunExplained(start: Row, events: seq<Event>)
    requires Started(start) && InOrder(events)
    ensures Explains(start, events, After(start, events))
  {
    if events != [] {
      var n := |events| - 1;
      RunExplained(start, events[..n]);
      assert n > 0 ==> events[..n][n - 1].now <= events[n].now;
    }
  }

  /**
   Confirming succeeds exactly when it is the first to come before the expiry: neither polling nor
   the lock after five failed confirmations ever turns such a confirmation down.
   */
  lemma BoundIffFirstInTime(start: Row, events: seq<Event>, i: nat)
    requires Started(start) && InOrder(events) && i < |events| && events[i].Confirm?
    ensures ConfirmAnswerAt(start, events, i) == Bound
            <==> events[i].now < start.expiresAt && Binder(start.expiresAt, events[..i]).None?
  {
    RunExplained(start, events[..i]);
    assert i > 0 ==> events[..i][i - 1].now <= events[i].now;
  }

  lemma StepAt(start: Row, events: seq<Event>, i: nat)
    requires i < |events|
    ensures RowBefore(start, events, i + 1) == Next(RowBefore(start, events, i), events[i])
  {
    assert events[..i + 1][..i] == events[..i];
  }

  lemma {:induction false} ConsumedStays(start: Row, events: seq<Event>, i: nat, j: nat)
    requires i <= j <= |events| && RowBefore(start, events, i).consumedAt.Some?
    requires RowBefore(start, events, i).status == Authorized
    ensures RowBefore(start, events, j).consumedAt.Some? && RowBefore(start, events, j).status == Authorized
  {
    if i < j {
      ConsumedStays(start, events, i, j - 1);
      StepAt(start, events, j - 1);
    }
  }

  /** A device code yields at most one token. */
  lemma AtMostOneToken(start: Row, events: seq<Event>, i: nat, j: nat)
    requires Started(start) && InOrder(events) && i < j < |events|
    requires events[i].Poll? && events[j].Poll? && PollAnswerAt(start, events, i).Token?
    ensures !PollAnswerAt(start, events, j).Token?
  {
    StepAt(start, events, i);
    ConsumedStays(start, events, i + 1, j);
  }

  /** A token is for the user who was bound first, and comes before the ten minutes are over. */
  lemma TokenIsForTheBinder(start: Row, events: seq<Event>, i: nat)
    requires Started(start) && InOrder(events) && i < |events| && events[i].Poll?
    requires PollAnswerAt(start, events, i).Token?
    ensures Binder(start.expiresAt, events[..i]) == Some(PollAnswerAt(start, events, i).user)
    ensures events[i].now < start.expiresAt < start.createdAt + DEVICE_CODE_TTL_SECONDS + 1.0
  {
    RunExplained(start, events[..i]);
  }

  /** Consumed rows are authorized rows. */
  lemma {:induction false} ConsumedIsAuthorized(start: Row, events: seq<Event>)
    requires Started(start)
    ensures After(start, events).consumedAt.Some? ==> After(start, events).status == Authorized
  {
    if events != [] { ConsumedIsAuthorized(start, events[..|events| - 1]); }
  }

  /** No call makes a row pending again. */
  lemma {:induction false} NeverPendingAgain(start: Row, events: seq<Event>, i: nat, j: nat)
    requires i <= j <= |events| && RowBefore(start, events, i).status != Pending
    ensures RowBefore(start, events, j).status != Pending
  {
    if i < j {
      NeverPendingAgain(start, events, i, j - 1);
      StepAt(start, events, j - 1);
    }
  }

  /** While a row can still be confirmed, nothing has counted against it. */
  lemma FailuresOnlyAfterExpiry(start: Row, events: seq<Event>, now: real)
    requires Started(start) && InOrder(events + [Poll(now)]) && now < start.expiresAt
    ensures After(start, events).status == Pending ==> After(start, events).failedConfirms == 0
  {
    RunExplained(start, events) by { InOrderPrefix(events, Poll(now)); }
    assert events != [] ==> (events + [Poll(now)])[|events| - 1].now <= (events + [Poll(now)])[|events|].now;
  }

  // The lock after five failed confirmations, and the same run without it.

  function ConfirmedUnlocked(row: Row, user: string, now: real): (Row, ConfirmAnswer) {
    if now >= row.expiresAt then (row.(failedConfirms := row.failedConfirms + 1), Refused(Expired))
    else if row.status != Pending then (row.(failedConfirms := row.failedConfirms + 1), Refused(row.status))
    else Confirmed(row, user, now)
  }

  function AfterUnlocked(row: Row, events: seq<Event>): Row {
    if events == [] then row
    else
      var before, e := AfterUnlocked(row, events[..|events| - 1]), events[|events| - 1];
      match e
      case Poll(now) => Polled(before, now).0
      case Confirm(now, user) => ConfirmedUnlocked(before, user, now).0
  }

  /** The rows differ at most in that one is marked expired and the other, past its expiry too, still pending. */
  ghost predicate SameButForLock(locked: Row, unlocked: Row, clock: real) {
    && locked == unlocked.(status := locked.status)
    && (locked.status == unlocked.status
        || (locked.status == Expired && unlocked.status == Pending && clock >= locked.expiresAt))
  }

  lemma LockStep(locked: Row, unlocked: Row, clock: real, e: Event)
    requires SameButForLock(locked, unlocked, clock) && clock <= e.now
    requires locked.status == Pending && locked.failedConfirms > 0 ==> clock >= locked.expiresAt
    ensures SameButForLock(Next(locked, e),
                           if e.Poll? then Polled(unlocked, e.now).0 else ConfirmedUnlocked(unlocked, e.user, e.now).0, e.now)
    ensures e.Poll? ==> Polled(locked, e.now).1 == Polled(unlocked, e.now).1
    ensures e.Confirm? ==> Confirmed(locked, e.user, e.now).1 == ConfirmedUnlocked(unlocked, e.user, e.now).1
  {
  }

  lemma {:induction false} LockIsInvisible(start: Row, events: seq<Event>)
    requires Started(start) && InOrder(events) && events != []
    ensures SameButForLock(After(start, events), AfterUnlocked(start, events), events[|events| - 1].now)
  {
    var n := |events| - 1;
    var before := events[..n];
    if n == 0 {
      LockStep(start, start, events[0].now, events[0]);
    } else {
      assert before[n - 1].now <= events[n].now;
      LockIsInvisible(start, before);
      RunExplained(start, before);
      LockStep(After(start, before), AfterUnlocked(start, before), before[n - 1].now, events[n]);
    }
  }

  /** Every poll and every confirmation is answered as if rows were never locked. */
  lemma LockChangesNoAnswer(start: Row, events: seq<Event>, i: nat)
    requires Started(start) && InOrder(events) && i < |events|
    ensures events[i].Poll? ==>
              PollAnswerAt(start, events, i) == Polled(AfterUnlocked(start, events[..i]), events[i].now).1
    ensures events[i].Confirm? ==>
              ConfirmAnswerAt(start, events, i)
              == ConfirmedUnlocked(AfterUnlocked(start, events[..i]), events[i].user, events[i].now).1
  {
    var before := events[..i];
    if i == 0 {
      LockStep(start, start, events[0].now, events[0]);
    } else {
      assert before[i - 1].now <= events[i].now;
      LockIsInvisible(start, before);
      RunExplained(start, before);
      LockStep(After(start, before), AfterUnlocked(start, before), before[i - 1].now, events[i]);
    }
  }

  lemma InOrderPrefix(events: seq<Event>, e: Event)
    requires InOrder(events + [e])
    ensures InOrder(events)
  {
    forall i, j | 0 <= i < j < |events| ensures events[i].now <= events[j].now {
      assert (events + [e])[i].now <= (events + [e])[j].now;
    }
  }

  lemma {:induction false} PollWrittenDown(start: Row, events: seq<Event>, i: nat, j: nat)
    requires InOrder(events) && i < j <= |events| && events[i].Poll? && Heard(PollAnswerAt(start, events, i))
    ensures var last := RowBefore(start, events, j).polledLast;
            last.Some? && last.value >= Iso(events[i].now)
  {
    StepAt(start, events, j - 1);
    if i + 1 < j {
      PollWrittenDown(start, events, i, j - 1);
      assert events[i].now <= events[j - 1].now;
      LaterWrites(RowBefore(start, events, j - 1), events[j - 1], events[i].now);
    } else {
      HeardIsWritten(RowBefore(start, events, i), events[i].now);
    }
  }

  lemma HeardIsWritten(row: Row, now: real)
    requires Heard(Polled(row, now).1)
    ensures Polled(row, now).0.polledLast == Some(Iso(now))
  {
  }

  lemma LaterWrites(row: Row, e: Event, t: real)
    requires row.polledLast.Some? && row.polledLast.value >= Iso(t) && t <= e.now
    ensures Next(row, e).polledLast.Some? && Next(row, e).polledLast.value >= Iso(t)
  {
    FloorMonotone(t, e.now);
  }

  lemma FloorMonotone(a: real, b: real)
    requires a <= b
    ensures Iso(a) <= Iso(b)
  {
    var f, g := a.Floor, b.Floor;
    assert f as real <= a < (f + 1) as real && g as real <= b < (g + 1) as real;
    assert (f as real) < (g + 1) as real;
    assert f < g + 1;
  }

  /** Two polls that are heard lie more than four seconds apart: the window less what truncation may cost. */
  lemma HeardPollsAreSpread(start: Row, events: seq<Event>, i: nat, j: nat)
    requires InOrder(events) && i < j < |events| && events[i].Poll? && events[j].Poll?
    requires Heard(PollAnswerAt(start, events, i)) && Heard(PollAnswerAt(start, events, j))
    ensures events[j].now - events[i].now > SLOW_DOWN_WINDOW_SECONDS - 1.0
  {
    PollWrittenDown(start, events, i, j);
  }

  /** Five seconds after the last heard poll is always late enough. */
  lemma {:induction false} NoSlowDownAfterWindow(start: Row, events: seq<Event>, i: nat)
    requires Started(start) && InOrder(events) && i < |events| && events[i].Poll?
    requires forall k :: 0 <= k < i && events[k].Poll? && Heard(PollAnswerAt(start, events, k)) ==>
               events[i].now >= events[k].now + SLOW_DOWN_WINDOW_SECONDS
    ensures PollAnswerAt(start, events, i) != SlowDown
  {
    LastPoll(start, events, i);
  }

  lemma {:induction false} LastPoll(start: Row, events: seq<Event>, j: nat)
    requires Started(start) && j <= |events|
    ensures var last := RowBefore(start, events, j).polledLast;
            last.Some? ==> exists k :: 0 <= k < j && events[k].Poll? && Heard(PollAnswerAt(start, events, k))
                                       && last.value == Iso(events[k].now)
  {
    if j > 0 {
      LastPoll(start, events, j - 1);
      StepAt(start, events, j - 1);
    }
  }

  lemma {:induction false} UnconsumedUntilToken(start: Row, events: seq<Event>, j: nat)
    requires Started(start) && j <= |events|
    requires forall k :: 0 <= k < j && events[k].Poll? ==> !PollAnswerAt(start, events, k).Token?
    ensures RowBefore(start, events, j).consumedAt.None?
  {
    if j > 0 {
      UnconsumedUntilToken(start, events, j - 1);
      StepAt(start, events, j - 1);
    }
  }

  /** Once confirmed, the first poll that is neither too soon nor too late gets the token. */
  lemma TokenIsDelivered(start: Row, events: seq<Event>, i: nat)
    requires Started(start) && InOrder(events) && i < |events| && events[i].Poll?
    requires Binder(start.expiresAt, events[..i]).Some? && events[i].now < start.expiresAt
    requires forall k :: 0 <= k < i && events[k].Poll? ==> !PollAnswerAt(start, events, k).Token?
    ensures PollAnswerAt(start, events, i) == Token(Binder(start.expiresAt, events[..i]).value)
            || PollAnswerAt(start, events, i) == SlowDown
  {
    RunExplained(start, events[..i]);
    UnconsumedUntilToken(start, events, i);
    assert i > 0 ==> events[..i][i - 1].now <= events[i].now;
  }

  /** Some earlier poll was heard less than five seconds ago, its time taken in whole seconds. */
  ghost predicate TooSoon(start: Row, events: seq<Event>, i: nat)
    requires i < |events|
  {
    exists k :: 0 <= k < i && events[k].Poll? && Heard(PollAnswerAt(start, events, k))
                && events[i].now - events[k].now.Floor as real < 5.0
  }

  ghost predicate TokenGiven(start: Row, events: seq<Event>, i: nat)
    requires i <= |events|
  {
    exists k :: 0 <= k < i && events[k].Poll? && PollAnswerAt(start, events, k).Token?
  }

  lemma SlowDownIff(start: Row, events: seq<Event>, i: nat)
    requires Started(start) && InOrder(events) && i < |events| && events[i].Poll?
    ensures PollAnswerAt(start, events, i) == SlowDown <==> TooSoon(start, events, i)
  {
    LastPoll(start, events, i);
    if TooSoon(start, events, i) {
      var k :| 0 <= k < i && events[k].Poll? && Heard(PollAnswerAt(start, events, k))
               && events[i].now - events[k].now.Floor as real < 5.0;
      PollWrittenDown(start, events, k, i);
    }
  }

  lemma ConsumedIffTokenGiven(start: Row, events: seq<Event>, i: nat)
    requires Started(start) && i <= |events|
    ensures RowBefore(start, events, i).consumedAt.Some? <==> TokenGiven(start, events, i)
  {
    if TokenGiven(start, events, i) {
      var k :| 0 <= k < i && events[k].Poll? && PollAnswerAt(start, events, k).Token?;
      StepAt(start, events, k);
      ConsumedStays(start, events, k + 1, i);
    } else {
      UnconsumedUntilToken(start, events, i);
    }
  }

  /**
   Every poll, from what happened before it: too soon after a heard poll it is told to slow down; otherwise,
   after a token or from the expiry on, that the code has expired; otherwise it gets the token of the user
   bound first, or `pending` while there is none. No poll is ever told `denied`.
   */
  lemma EveryPollAnswer(start: Row, events: seq<Event>, i: nat)
    requires Started(start) && InOrder(events) && i < |events| && events[i].Poll?
    ensures var answer, bound := PollAnswerAt(start, events, i), Binder(start.expiresAt, events[..i]);
            if TooSoon(start, events, i) then answer == SlowDown
            else if TokenGiven(start, events, i) || events[i].now >= start.expiresAt then answer == HasExpired
            else if bound.Some? then answer == Token(bound.value)
            else answer == StillPending
  {
    SlowDownIff(start, events, i);
    ConsumedIffTokenGiven(start, events, i);
    RunExplained(start, events[..i]);
    assert i > 0 ==> events[..i][i - 1].now <= events[i].now;
  }

  /** Every confirmation: bound when first in time, refused as expired from the expiry on, else as already authorized. */
  lemma EveryConfirmAnswer(start: Row, events: seq<Event>, i: nat)
    requires Started(start) && InOrder(events) && i < |events| && events[i].Confirm?
    ensures ConfirmAnswerAt(start, events, i)
            == if events[i].now >= start.expiresAt then Refused(Expired)
               else if Binder(start.expiresAt, events[..i]).Some? then Refused(Authorized)
               else Bound
  {
    RunExplained(start, events[..i]);
    assert i > 0 ==> events[..i][i - 1].now <= events[i].now;
  }

  // ---------------------------------------------------------------------
  // User codes
  // ---------------------------------------------------------------------

  function FormatUserCode(raw: string): string
    requires |raw| == USER_CODE_LENGTH
  {
    raw[..4] + "-" + raw[4..]
  }

  /** Text operations the program takes from its language. */
  datatype Text = Text(upper: string -> string, isSpace: char -> bool)

  predicate CodeChar(c: char) {
    c in USER_CODE_ALPHABET || c == '-'
  }

  /** Upper-casing leaves the code alphabet alone, and none of it is white space. */
  ghost predicate Sensible(text: Text) {
    && (forall s :: (forall c :: c in s ==> CodeChar(c)) ==> text.upper(s) == s)
    && (forall c :: CodeChar(c) ==> !text.isSpace(c))
  }

  function Strip(text: Text, s: string): string {
    if s == "" then ""
    else if s[0] == '-' || text.isSpace(s[0]) then Strip(text, s[1..])
    else [s[0]] + Strip(text, s[1..])
  }

  function NormalizeUserCode(text: Text, presented: string): string {
    Strip(text, text.upper(presented))
  }

  lemma {:induction false} StripAppend(text: Text, a: string, b: string)
    ensures Strip(text, a + b) == Strip(text, a) + Strip(text, b)
  {
    if a == "" {
      assert a + b == b;
    } else {
      assert (a + b)[1..] == a[1..] + b;
      StripAppend(text, a[1..], b);
    }
  }

  lemma {:induction false} StripNothing(text: Text, s: string)
    requires forall c :: c in s ==> c != '-' && !text.isSpace(c)
    ensures Strip(text, s) == s
  {
    if s != "" {
      assert s[0] in s && forall c :: c in s[1..] ==> c in s;
      StripNothing(text, s[1..]);
      assert s == [s[0]] + s[1..];
    }
  }

  /** The code as shown to the user reads back as the code in the table. */
  lemma ShownCodeReadsBack(text: Text, raw: string)
    requires Sensible(text) && |raw| == USER_CODE_LENGTH && forall c :: c in raw ==> c in USER_CODE_ALPHABET
    ensures NormalizeUserCode(text, FormatUserCode(raw)) == raw
  {
    var a, b := raw[..4], raw[4..];
    assert FormatUserCode(raw) == a + "-" + b && a + b == raw;
    forall c | c in FormatUserCode(raw) ensures CodeChar(c) {
      assert c in a || c == '-' || c in b;
      assert c in a || c in b ==> c in raw;
    }
    PlainCode(text, raw, a);
    PlainCode(text, raw, b);
    StripAppend(text, a + "-", b);
    StripAppend(text, a, "-");
    assert Strip(text, "-") == "";
  }

  /** Dashes and white space do not count, wherever they are typed, and nothing else is lost. */
  lemma SeparatorsDoNotCount(text: Text, before: string, sep: char, after: string)
    ensures sep == '-' || text.isSpace(sep) ==> Strip(text, before + [sep] + after) == Strip(text, before + after)
    ensures (forall c :: c in before ==> c != '-' && !text.isSpace(c)) ==> Strip(text, before) == before
  {
    StripAppend(text, before + [sep], after);
    StripAppend(text, before, [sep]);
    StripAppend(text, before, after);
    if sep == '-' || text.isSpace(sep) {
      assert [sep][1..] == "";
      assert Strip(text, [sep]) == "";
      assert Strip(text, before) + "" == Strip(text, before);
    }
    if forall c :: c in before ==> c != '-' && !text.isSpace(c) { StripNothing(text, before); }
  }

  lemma PlainCode(text: Text, raw: string, part: string)
    requires Sensible(text) && forall c :: c in raw ==> c in USER_CODE_ALPHABET
    requires forall c :: c in part ==> c in raw
    ensures Strip(text, part) == part
  {
    forall c | c in part ensures c != '-' && !text.isSpace(c) { assert CodeChar(c); }
    StripNothing(text, part);
  }

  // ---------------------------------------------------------------------
  // The table
  // ---------------------------------------------------------------------

  datatype Mint = Mint(device: string, user: string)

  datatype Confirmation = Confirmation(
    answer: ConfirmAnswer,
    device: Option<string>,
    inviteAccepted: bool,
    inviteError: Option<string>)

  /** What accepting the attached invite came to; it never blocks the confirmation. */
  datatype InviteOutcome = Accepted | NotAcceptable | Failed(message: string)

  ghost predicate OwnCodes(rows: map<string, Row>) {
    forall c, d :: c in rows && d in rows && c != d ==> rows[c].userCode != rows[d].userCode
  }

  ghost predicate MintedOnce(minted: seq<Mint>) {
    forall i, j :: 0 <= i < j < |minted| ==> minted[i].device != minted[j].device
  }

  /** A consumed row is authorized and accounts for exactly one token, for its user. */
  ghost predicate RowOk(row: Row, d: string, minted: seq<Mint>) {
    && (row.consumedAt.Some? ==> row.status == Authorized && row.user.Some? && Mint(d, row.user.value) in minted)
    && (row.consumedAt.None? ==> forall m :: m in minted ==> m.device != d)
    && (forall m :: m in minted && m.device == d ==> row.user == Some(m.user))
  }

  ghost predicate TableOk(rows: map<string, Row>, minted: seq<Mint>) {
    && OwnCodes(rows) && MintedOnce(minted)
    && (forall d {:trigger RowOk(rows[d], d, minted)} :: d in rows ==> RowOk(rows[d], d, minted))
    && (forall m :: m in minted ==> m.device in rows)
  }

  lemma Replaced(rows: map<string, Row>, minted: seq<Mint>, d: string, row: Row)
    requires TableOk(rows, minted) && d in rows && row.userCode == rows[d].userCode && RowOk(row, d, minted)
    ensures TableOk(rows[d := row], minted)
  {
    var rows' := rows[d := row];
    forall c | c in rows' ensures RowOk(rows'[c], c, minted) { if c != d { assert RowOk(rows[c], c, minted); } }
  }

  lemma ConfirmedOk(rows: map<string, Row>, minted: seq<Mint>, d: string, user: string, now: real)
    requires TableOk(rows, minted) && d in rows
    ensures TableOk(rows[d := Confirmed(rows[d], user, now).0], minted)
    ensures TableOk(rows[d := Bumped(rows[d], Expired).0], minted)
  {
    assert RowOk(rows[d], d, minted);
    Replaced(rows, minted, d, Confirmed(rows[d], user, now).0);
    Replaced(rows, minted, d, Bumped(rows[d], Expired).0);
  }

  lemma PolledOk(rows: map<string, Row>, minted: seq<Mint>, d: string, now: real)
    requires TableOk(rows, minted) && d in rows
    ensures var (row, answer) := Polled(rows[d], now);
            TableOk(rows[d := row], if answer.Token? then minted + [Mint(d, answer.user)] else minted)
  {
    assert RowOk(rows[d], d, minted);
    var (row, answer) := Polled(rows[d], now);
    if answer.Token? {
      MintOne(rows, minted, d, row, answer.user);
    } else {
      Replaced(rows, minted, d, row);
    }
  }

  lemma MintOne(rows: map<string, Row>, minted: seq<Mint>, d: string, row: Row, user: string)
    requires TableOk(rows, minted) && d in rows && row.userCode == rows[d].userCode
    requires rows[d].consumedAt.None? && row.consumedAt.Some? && row.status == Authorized && row.user == Some(user)
    ensures TableOk(rows[d := row], minted + [Mint(d, user)])
  {
    var rows', minted' := rows[d := row], minted + [Mint(d, user)];
    assert RowOk(rows[d], d, minted);
    assert forall m :: m in minted' <==> m in minted || m == Mint(d, user);
    forall i | 0 <= i < |minted| ensures minted'[i].device != d { assert minted'[i] in minted; }
    forall c | c in rows' ensures RowOk(rows'[c], c, minted') { if c != d { assert RowOk(rows[c], c, minted); } }
  }

  lemma StartedOk(rows: map<string, Row>, minted: seq<Mint>, d: string, row: Row)
    requires TableOk(rows, minted) && d !in rows && row.consumedAt.None?
    requires forall c :: c in rows ==> rows[c].userCode != row.userCode
    ensures TableOk(rows[d := row], minted)
  {
    var rows' := rows[d := row];
    forall c | c in rows' ensures RowOk(rows'[c], c, minted) { if c != d { assert RowOk(rows[c], c, minted); } }
  }

  /** By device code, else by normalized user code. */
  predicate Finds(text: Text, rows: map<string, Row>, code: string, d: string) {
    d in rows && (d == code || (code !in rows && rows[d].userCode == NormalizeUserCode(text, code)))
  }

  /** One more failure on record; the fifth expires a row that is still pending. */
  ghost predicate Counted(row: Row, row': Row) {
    && row' == row.(failedConfirms := row.failedConfirms + 1, status := row'.status)
    && (row.status == Pending && row.failedConfirms + 1 >= 5 ==> row'.status == Expired)
    && (row.status != Pending || row.failedConfirms + 1 < 5 ==> row'.status == row.status)
  }

  class DeviceStore {
    const text: Text
    var rows: map<string, Row>
    ghost var minted: seq<Mint>

    /** In particular no device code is ever in `minted` twice. */
    ghost predicate Valid()
      reads this
    {
      TableOk(rows, minted)
    }

    constructor (text: Text)
      ensures Valid() && rows == map[] && minted == [] && this.text == text
    {
      this.text := text;
      rows, minted := map[], [];
    }

    /** Up to ten random candidates; the first that no row uses. */
    method UniqueUserCode(candidates: seq<string>) returns (code: Option<string>)
      requires |candidates| == CANDIDATES
      ensures code.Some? ==> code.value in candidates && forall d :: d in rows ==> rows[d].userCode != code.value
      ensures code.None? ==> forall c :: c in candidates ==> exists d :: d in rows && rows[d].userCode == c
    {
      for i := 0 to |candidates|
        invariant forall k :: 0 <= k < i ==> exists d :: d in rows && rows[d].userCode == candidates[k]
      {
        if forall d :: d in rows ==> rows[d].userCode != candidates[i] {
          return Some(candidates[i]);
        }
      }
      code := None;
    }

    /** A fresh device code gets a pending row with a user code of its own. */
    method Start(deviceCode: string, candidates: seq<string>, invite: Option<string>, now: real)
      returns (code: Option<string>)
      requires Valid() && deviceCode !in rows && |candidates| == CANDIDATES
      modifies this
      ensures Valid() && minted == old(minted)
      ensures code.None? ==> rows == old(rows)
      ensures code.None? <==> forall c :: c in candidates ==> exists d :: d in old(rows) && old(rows)[d].userCode == c
      ensures code.Some? ==> code.value in candidates && rows == old(rows)[deviceCode := NewRow(code.value, invite, now)]
      ensures code.Some? ==>
                rows[deviceCode] == Row(code.value, Pending, None, invite, now.Floor as real, (now + 600.0).Floor as real,
                                        None, None, None, 0)
    {
      code := UniqueUserCode(candidates);
      if code.Some? {
        StartedOk(rows, minted, deviceCode, NewRow(code.value, invite, now));
        rows := rows[deviceCode := NewRow(code.value, invite, now)];
      }
    }

    /** One poll: rate limit first, then the single-use guard, then expiry, then the status. */
    method PollOnce(deviceCode: string, now: real) returns (answer: PollAnswer)
      requires Valid()
      modifies this
      ensures Valid()
      ensures deviceCode !in old(rows) ==> answer == NotFound && rows == old(rows) && minted == old(minted)
      ensures deviceCode in old(rows) ==>
                && rows == old(rows)[deviceCode := Polled(old(rows)[deviceCode], now).0]
                && answer == Polled(old(rows)[deviceCode], now).1
                && minted == if answer.Token? then old(minted) + [Mint(deviceCode, answer.user)] else old(minted)
    {
      if deviceCode !in rows { return NotFound; }
      PolledOk(rows, minted, deviceCode, now);
      var row := rows[deviceCode];
      assert rows[deviceCode := row] == rows;
      if row.polledLast.Some? {
        if now - row.polledLast.value < SLOW_DOWN_WINDOW_SECONDS { return SlowDown; }
      }
      if row.consumedAt.Some? { return HasExpired; }
      if now >= row.expiresAt {
        if row.status != Expired {
          rows := rows[deviceCode := row.(status := Expired)];
        }
        return HasExpired;
      }
      if row.status == Expired { return HasExpired; }
      if row.status == Denied { return WasDenied; }
      if row.status == Pending {
        rows := rows[deviceCode := row.(polledLast := Some(Iso(now)))];
        return StillPending;
      }
      if row.user.None? { return HasExpired; }
      answer := Token(row.user.value);
      minted := minted + [Mint(deviceCode, row.user.value)];
      rows := rows[deviceCode := row.(consumedAt := Some(Iso(now)), polledLast := Some(Iso(now)))];
    }

    method Lookup(code: string) returns (device: Option<string>)
      requires Valid()
      ensures device.Some? ==>
                && Finds(text, rows, code, device.value)
                && forall d :: Finds(text, rows, code, d) ==> d == device.value
      ensures device.None? ==> forall d :: !Finds(text, rows, code, d)
    {
      if code in rows { return Some(code); }
      var normalized := NormalizeUserCode(text, code);
      if exists d :: d in rows && rows[d].userCode == normalized {
        var d :| d in rows && rows[d].userCode == normalized;
        return Some(d);
      }
      device := None;
    }

    method Authorize(code: string, user: string, now: real, invite: InviteOutcome) returns (r: Confirmation)
      requires Valid()
      modifies this
      ensures Valid() && minted == old(minted)
      ensures r.device.None? <==> forall d :: !Finds(text, old(rows), code, d)
      ensures r.device.None? ==> r.answer == NoSuchCode && rows == old(rows)
      ensures r.device.Some? ==>
                var d := r.device.value;
                && Finds(text, old(rows), code, d)
                && rows == old(rows)[d := Confirmed(old(rows)[d], user, now).0]
                && r.answer == Confirmed(old(rows)[d], user, now).1
                && (r.answer == Bound ==>
                      rows[d] == old(rows)[d].(status := Authorized, user := Some(user), authorizedAt := Some(now.Floor as real)))
                && (r.answer != Bound ==> Counted(old(rows)[d], rows[d]))
                && var hasInvite := old(rows)[d].invite.Some? && old(rows)[d].invite.value != "";
                   (r.inviteAccepted <==> r.answer == Bound && hasInvite && invite == Accepted)
                   && (r.inviteError.Some? <==> r.answer == Bound && hasInvite && invite != Accepted)
    {
      var found := Lookup(code);
      if found.None? { return Confirmation(NoSuchCode, None, false, None); }
      var d := found.value;
      var row := rows[d];
      ConfirmedOk(rows, minted, d, user, now);
      if now >= row.expiresAt {
        var refused := BumpAndMaybeLock(d, Expired);
        return Confirmation(refused, Some(d), false, None);
      }
      if row.status != Pending {
        var refused := BumpAndMaybeLock(d, row.status);
        return Confirmation(refused, Some(d), false, None);
      }
      var inviteAccepted, inviteError := false, None;
      if InviteTried(row) {
        match invite
        case Accepted => inviteAccepted := true;
        case NotAcceptable => inviteError := Some("invite not acceptable");
        case Failed(message) => inviteError := Some(message);
      }
      rows := rows[d := row.(status := Authorized, user := Some(user), authorizedAt := Some(Iso(now)))];
      r := Confirmation(Bound, Some(d), inviteAccepted, inviteError);
    }

    predicate InviteTried(row: Row) {
      row.invite.Some? && row.invite.value != ""
    }

    method BumpAndMaybeLock(d: string, reason: Status) returns (answer: ConfirmAnswer)
      requires Valid() && d in rows
      modifies this`rows
      ensures rows == old(rows)[d := Bumped(old(rows)[d], reason).0] && answer == Bumped(old(rows)[d], reason).1
      ensures Counted(old(rows)[d], rows[d])
    {
      var status := rows[d].status;
      var counted := rows[d].(failedConfirms := rows[d].failedConfirms + 1);
      rows := rows[d := counted];
      if counted.failedConfirms >= MAX_FAILED_CONFIRMS && status == Pending {
        rows := rows[d := counted.(status := Expired)];
        return Refused(Expired);
      }
      answer := Refused(reason);
    }
  }
}
