/**
 The in-process email queue: one worker, retries after a jittered delay, no persistence. The worker,
 the retry timers and the callers share one event loop, so each event below is one atomic step. The
 network is the outcome of a send.
 */
module EmailQueue {

  /** `attempt` counts the failed sends so far. */
  datatype Item = Item(id: nat, attempt: nat)

  datatype Outcome = Sent | TransientFailure | PermanentFailure | UnexpectedError

  /**
   Where every email is. `sends` lists the sends started; `worker` and `stopped` are the worker task and
   the stop flag; emails are numbered as they are enqueued.
   */
  datatype State = State(
    queue: seq<Item>,
    sending: seq<Item>,
    waiting: seq<Item>,
    delivered: seq<Item>,
    dropped: seq<Item>,
    abandoned: seq<Item>,
    sends: seq<Item>,
    nextId: nat,
    worker: bool,
    stopped: bool)

  datatype Event = Enqueue | Start | Stop | Take | Finish(outcome: Outcome) | Fire(timer: nat)

  predicate Enabled(s: State, e: Event) {
    match e
    case Take => s.worker && s.sending == [] && s.queue != []
    case Finish(_) => |s.sending| == 1
    case Fire(i) => i < |s.waiting|
    case _ => true
  }

  function Without<T>(s: seq<T>, i: nat): seq<T>
    requires i < |s|
  {
    s[..i] + s[i + 1..]
  }

  function Step(s: State, e: Event, retries: nat): State
    requires Enabled(s, e)
  {
    match e
    case Enqueue => s.(queue := s.queue + [Item(s.nextId, 0)], nextId := s.nextId + 1)
    case Start => if s.worker then s else s.(worker := true, stopped := false)
    case Stop =>
      if !s.worker then s
      else s.(worker := false, stopped := true, sending := [], abandoned := s.abandoned + s.sending)
    case Take => s.(queue := s.queue[1..], sending := [s.queue[0]], sends := s.sends + [s.queue[0]])
    case Finish(outcome) => Finished(s.(sending := []), s.sending[0], outcome, retries)
    case Fire(i) =>
      var rest := s.(waiting := Without(s.waiting, i));
      if s.stopped then rest.(abandoned := s.abandoned + [s.waiting[i]])
      else rest.(queue := s.queue + [s.waiting[i]])
  }

  /** `_process` after the send: deliver, drop, or wait for another try. */
  function Finished(s: State, item: Item, outcome: Outcome, retries: nat): State {
    match outcome
    case Sent => s.(delivered := s.delivered + [item])
    case PermanentFailure => s.(dropped := s.dropped + [item])
    case UnexpectedError => s.(dropped := s.dropped + [item])
    case TransientFailure =>
      if item.attempt >= retries then s.(dropped := s.dropped + [item])
      else s.(waiting := s.waiting + [item.(attempt := item.attempt + 1)])
  }

  function Initial(): State {
    State([], [], [], [], [], [], [], 0, false, false)
  }

  // ---------------------------------------------------------------------
  // Conservation
  // ---------------------------------------------------------------------

  function Count(items: seq<Item>, id: nat): nat {
    if items == [] then 0 else Count(items[..|items| - 1], id) + Flag(items[|items| - 1].id == id)
  }

  function Flag(b: bool): nat {
    if b then 1 else 0
  }

  /** In how many places an email is. */
  function Everywhere(s: State, id: nat): nat {
    Count(s.queue, id) + Count(s.sending, id) + Count(s.waiting, id)
    + Count(s.delivered, id) + Count(s.dropped, id) + Count(s.abandoned, id)
  }

  lemma {:induction false} CountConcat(a: seq<Item>, b: seq<Item>, id: nat)
    ensures Count(a + b, id) == Count(a, id) + Count(b, id)
  {
    if b == [] {
      assert a + b == a;
    } else {
      var n := |b| - 1;
      CountConcat(a, b[..n], id);
      assert (a + b)[..|a + b| - 1] == a + b[..n];
    }
  }

  lemma CountAppend(items: seq<Item>, item: Item, id: nat)
    ensures Count(items + [item], id) == Count(items, id) + Flag(item.id == id)
  {
    assert (items + [item])[..|items|] == items;
  }

  lemma CountOfOne(item: Item, id: nat)
    ensures Count([item], id) == Flag(item.id == id)
  {
    assert [item][..0] == [];
  }

  lemma CountFirst(items: seq<Item>, id: nat)
    requires items != []
    ensures Count(items, id) == Flag(items[0].id == id) + Count(items[1..], id)
  {
    assert items == [items[0]] + items[1..];
    CountConcat([items[0]], items[1..], id);
    CountOfOne(items[0], id);
  }

  lemma CountWithout(items: seq<Item>, i: nat, id: nat)
    requires i < |items|
    ensures Count(items, id) == Count(Without(items, i), id) + Flag(items[i].id == id)
  {
    assert items == items[..i] + items[i..];
    CountConcat(items[..i], items[i..], id);
    CountFirst(items[i..], id);
    assert items[i..][1..] == items[i + 1..];
    CountConcat(items[..i], items[i + 1..], id);
  }

  lemma {:induction false} CountMember(items: seq<Item>, item: Item)
    requires item in items
    ensures Count(items, item.id) >= 1
  {
    var n := |items| - 1;
    if item != items[n] {
      assert items == items[..n] + [items[n]];
      CountMember(items[..n], item);
    }
  }

  /** No step loses, copies or invents an email, except that `Enqueue` brings the next one. */
  lemma StepConserves(s: State, e: Event, retries: nat, id: nat)
    requires Enabled(s, e)
    ensures Everywhere(Step(s, e, retries), id) == Everywhere(s, id) + Flag(e.Enqueue? && id == s.nextId)
  {
    match e
    case Enqueue => CountAppend(s.queue, Item(s.nextId, 0), id);
    case Take =>
      CountFirst(s.queue, id);
      CountOfOne(s.queue[0], id);
    case Stop => CountConcat(s.abandoned, s.sending, id);
    case Finish(outcome) => FinishConserves(s, outcome, retries, id);
    case Fire(i) =>
      CountWithout(s.waiting, i, id);
      CountAppend(s.queue, s.waiting[i], id);
      CountAppend(s.abandoned, s.waiting[i], id);
    case Start =>
  }

  lemma FinishConserves(s: State, outcome: Outcome, retries: nat, id: nat)
    requires Enabled(s, Finish(outcome))
    ensures Everywhere(Step(s, Finish(outcome), retries), id) == Everywhere(s, id)
  {
    assert s.sending == [s.sending[0]];
    CountOfOne(s.sending[0], id);
    PutSomewhere(s.(sending := []), s.sending[0], outcome, retries, id);
  }

  lemma PutSomewhere(s: State, item: Item, outcome: Outcome, retries: nat, id: nat)
    ensures Everywhere(Finished(s, item, outcome, retries), id) == Everywhere(s, id) + Flag(item.id == id)
  {
    if outcome == Sent {
      CountAppend(s.delivered, item, id);
    } else if outcome == TransientFailure && item.attempt < retries {
      CountAppend(s.waiting, Item(item.id, item.attempt + 1), id);
    } else {
      CountAppend(s.dropped, item, id);
    }
  }

  // ---------------------------------------------------------------------
  // Attempts
  // ---------------------------------------------------------------------

  /** Sends still allowed for these items. */
  function Left(items: seq<Item>, retries: nat): int {
    if items == [] then 0
    else Left(items[..|items| - 1], retries) + retries + 1 - items[|items| - 1].attempt
  }

  lemma {:induction false} LeftConcat(a: seq<Item>, b: seq<Item>, retries: nat)
    ensures Left(a + b, retries) == Left(a, retries) + Left(b, retries)
  {
    if b == [] {
      assert a + b == a;
    } else {
      var n := |b| - 1;
      LeftConcat(a, b[..n], retries);
      assert (a + b)[..|a + b| - 1] == a + b[..n];
    }
  }

  lemma LeftOfOne(item: Item, retries: nat)
    ensures Left([item], retries) == retries + 1 - item.attempt
  {
    assert [item][..0] == [];
  }

  lemma LeftWithout(items: seq<Item>, i: nat, retries: nat)
    requires i < |items|
    ensures Left(items, retries) == Left(Without(items, i), retries) + retries + 1 - items[i].attempt
  {
    var a, b := items[..i], items[i + 1..];
    assert items == a + [items[i]] + b;
    LeftConcat(a + [items[i]], b, retries);
    LeftConcat(a, [items[i]], retries);
    LeftConcat(a, b, retries);
    LeftOfOne(items[i], retries);
  }

  lemma {:induction false} LeftNonNegative(items: seq<Item>, retries: nat)
    requires forall item :: item in items ==> item.attempt <= retries + 1
    ensures Left(items, retries) >= 0
  {
    if items != [] {
      assert forall item :: item in items[..|items| - 1] ==> item in items;
      assert items[|items| - 1] in items;
      LeftNonNegative(items[..|items| - 1], retries);
    }
  }

  /** Sends that may still happen; the one under way is no longer counted. */
  function Remaining(s: State, retries: nat): int {
    Left(s.queue, retries) + Left(s.sending, retries) - |s.sending| + Left(s.waiting, retries)
  }

  /** Each step changes the remaining sends by this much at most: a send costs exactly one. */
  lemma StepRemaining(s: State, e: Event, retries: nat)
    requires Enabled(s, e) && |s.sending| <= 1
    requires forall item :: item in s.sending || item in s.waiting ==> item.attempt <= retries
    ensures var after := Remaining(Step(s, e, retries), retries);
            && (e.Enqueue? ==> after == Remaining(s, retries) + retries + 1)
            && (e.Take? ==> after == Remaining(s, retries) - 1)
            && (!e.Enqueue? && !e.Take? ==> after <= Remaining(s, retries))
  {
    match e
    case Enqueue =>
      LeftConcat(s.queue, [Item(s.nextId, 0)], retries);
      LeftOfOne(Item(s.nextId, 0), retries);
    case Take =>
      assert s.queue == [s.queue[0]] + s.queue[1..];
      LeftConcat([s.queue[0]], s.queue[1..], retries);
    case Finish(outcome) =>
      assert s.sending == [s.sending[0]] && s.sending[0] in s.sending;
      LeftOfOne(s.sending[0], retries);
      var again := s.sending[0].(attempt := s.sending[0].attempt + 1);
      LeftConcat(s.waiting, [again], retries);
      LeftOfOne(again, retries);
    case Fire(i) =>
      assert s.waiting[i] in s.waiting;
      LeftWithout(s.waiting, i, retries);
      LeftConcat(s.queue, [s.waiting[i]], retries);
      LeftOfOne(s.waiting[i], retries);
    case Stop =>
      if s.worker && s.sending != [] {
        assert s.sending == [s.sending[0]] && s.sending[0] in s.sending;
        LeftOfOne(s.sending[0], retries);
      }
    case _ =>
  }

  /** Attempt counters agree with the sends made: one more send than failures while one is under way. */
  ghost predicate ItemsOk(items: seq<Item>, sends: seq<Item>, underWay: nat, retries: nat) {
    forall item :: item in items ==> item.attempt <= retries && Count(sends, item.id) == item.attempt + underWay
  }

  /** An email is in one place once it has been enqueued, and in none before. */
  ghost predicate Conserved(s: State) {
    forall id: nat {:trigger Everywhere(s, id)} :: Everywhere(s, id) == Flag(id < s.nextId)
  }

  ghost predicate SendsOk(s: State, retries: nat) {
    forall id: nat {:trigger Count(s.sends, id)} :: Count(s.sends, id) <= (retries + 1) * Flag(id < s.nextId)
  }

  ghost predicate Inv(s: State, retries: nat) {
    && Conserved(s)
    && |s.sending| <= 1 && (s.sending != [] ==> s.worker)
    && ItemsOk(s.queue, s.sends, 0, retries)
    && ItemsOk(s.sending, s.sends, 1, retries)
    && ItemsOk(s.waiting, s.sends, 0, retries)
    && SendsOk(s, retries)
    && PaidFor(s, retries)
  }

  lemma ItemsOkOthers(items: seq<Item>, sends: seq<Item>, sent: Item, underWay: nat, retries: nat)
    requires ItemsOk(items, sends, underWay, retries) && Count(items, sent.id) == 0
    ensures ItemsOk(items, sends + [sent], underWay, retries)
  {
    forall item | item in items
      ensures item.attempt <= retries && Count(sends + [sent], item.id) == item.attempt + underWay
    {
      CountMember(items, item);
      CountAppend(sends, sent, item.id);
    }
  }

  lemma TakeKeepsItems(s: State, retries: nat)
    requires Inv(s, retries) && Enabled(s, Take)
    ensures var t := Step(s, Take, retries);
            && ItemsOk(t.queue, t.sends, 0, retries) && ItemsOk(t.sending, t.sends, 1, retries)
            && ItemsOk(t.waiting, t.sends, 0, retries) && SendsOk(t, retries)
  {
    var first, rest := s.queue[0], s.queue[1..];
    assert first in s.queue;
    CountFirst(s.queue, first.id);
    assert Everywhere(s, first.id) == 1;
    assert forall item :: item in rest ==> item in s.queue;
    ItemsOkOthers(rest, s.sends, first, 0, retries);
    ItemsOkOthers(s.waiting, s.sends, first, 0, retries);
    CountAppend(s.sends, first, first.id);
    forall id: nat ensures Count(s.sends + [first], id) <= (retries + 1) * Flag(id < s.nextId) {
      CountAppend(s.sends, first, id);
    }
  }

  lemma OtherKeepsItems(s: State, e: Event, retries: nat)
    requires |s.sending| <= 1 && SendsOk(s, retries)
    requires ItemsOk(s.queue, s.sends, 0, retries) && ItemsOk(s.sending, s.sends, 1, retries)
    requires ItemsOk(s.waiting, s.sends, 0, retries)
    requires Enabled(s, e) && !e.Take?
    ensures var t := Step(s, e, retries);
            && ItemsOk(t.queue, t.sends, 0, retries) && ItemsOk(t.sending, t.sends, 1, retries)
            && ItemsOk(t.waiting, t.sends, 0, retries) && SendsOk(t, retries)
  {
    match e
    case Enqueue => NewItem(s, retries);
    case Finish(outcome) => AgainItem(s, outcome, retries);
    case Fire(i) => FiredItem(s, i, retries);
    case _ =>
  }

  lemma FiredItem(s: State, i: nat, retries: nat)
    requires i < |s.waiting| && ItemsOk(s.queue, s.sends, 0, retries) && ItemsOk(s.waiting, s.sends, 0, retries)
    ensures ItemsOk(Without(s.waiting, i), s.sends, 0, retries)
    ensures ItemsOk(s.queue + [s.waiting[i]], s.sends, 0, retries)
  {
    assert s.waiting[i] in s.waiting;
    assert forall item :: item in Without(s.waiting, i) ==> item in s.waiting;
    AppendItem(s.queue, s.waiting[i], s.sends, retries);
  }

  lemma AppendItem(items: seq<Item>, item: Item, sends: seq<Item>, retries: nat)
    requires ItemsOk(items, sends, 0, retries) && item.attempt <= retries && Count(sends, item.id) == item.attempt
    ensures ItemsOk(items + [item], sends, 0, retries)
  {
  }

  /** A new email has never been sent. */
  lemma NewItem(s: State, retries: nat)
    requires ItemsOk(s.queue, s.sends, 0, retries) && SendsOk(s, retries)
    ensures ItemsOk(s.queue + [Item(s.nextId, 0)], s.sends, 0, retries)
    ensures SendsOk(s.(queue := s.queue + [Item(s.nextId, 0)], nextId := s.nextId + 1), retries)
  {
    assert Count(s.sends, s.nextId) == 0;
    AppendItem(s.queue, Item(s.nextId, 0), s.sends, retries);
    forall id: nat ensures Count(s.sends, id) <= (retries + 1) * Flag(id < s.nextId + 1) {}
  }

  lemma AgainItem(s: State, outcome: Outcome, retries: nat)
    requires |s.sending| == 1 && ItemsOk(s.sending, s.sends, 1, retries) && ItemsOk(s.waiting, s.sends, 0, retries)
    ensures ItemsOk(Step(s, Finish(outcome), retries).waiting, s.sends, 0, retries)
  {
    var item := s.sending[0];
    assert item in s.sending;
    if outcome == TransientFailure && item.attempt < retries {
      AppendItem(s.waiting, item.(attempt := item.attempt + 1), s.sends, retries);
    }
  }

  /** Every send, made or still possible, was paid for by an enqueue. */
  ghost predicate PaidFor(s: State, retries: nat) {
    |s.sends| + Remaining(s, retries) <= (retries + 1) * s.nextId
  }

  lemma StepPays(s: State, e: Event, retries: nat)
    requires Enabled(s, e) && |s.sending| <= 1 && PaidFor(s, retries)
    requires forall item :: item in s.sending || item in s.waiting ==> item.attempt <= retries
    ensures PaidFor(Step(s, e, retries), retries)
  {
    StepRemaining(s, e, retries);
    OneMoreEnqueue(retries, s.nextId);
  }

  lemma OneMoreEnqueue(retries: nat, n: nat)
    ensures (retries + 1) * (n + 1) == (retries + 1) * n + retries + 1
  {
  }

  lemma StepKeepsInv(s: State, e: Event, retries: nat)
    requires Inv(s, retries) && Enabled(s, e)
    ensures Inv(Step(s, e, retries), retries)
  {
    StepKeepsConserved(s, e, retries);
    StepPays(s, e, retries);
    if e.Take? { TakeKeepsItems(s, retries); } else { OtherKeepsItems(s, e, retries); }
    OneSend(s, e, retries);
  }

  lemma StepKeepsConserved(s: State, e: Event, retries: nat)
    requires Conserved(s) && Enabled(s, e)
    ensures Conserved(Step(s, e, retries))
  {
    var t := Step(s, e, retries);
    forall id: nat ensures Everywhere(t, id) == Flag(id < t.nextId) {
      StepConserves(s, e, retries, id);
      assert Everywhere(s, id) == Flag(id < s.nextId);
    }
  }

  lemma OneSend(s: State, e: Event, retries: nat)
    requires |s.sending| <= 1 && (s.sending != [] ==> s.worker) && Enabled(s, e)
    ensures var t := Step(s, e, retries); |t.sending| <= 1 && (t.sending != [] ==> t.worker)
  {
  }

  lemma InitialInv(retries: nat)
    ensures Inv(Initial(), retries)
  {
  }

  // ---------------------------------------------------------------------
  // Runs
  // ---------------------------------------------------------------------

  predicate IsRun(events: seq<Event>, retries: nat)
    decreases |events|, 0
  {
    events == [] || (IsRun(events[..|events| - 1], retries)
                     && Enabled(After(events[..|events| - 1], retries), events[|events| - 1]))
  }

  function After(events: seq<Event>, retries: nat): State
    requires IsRun(events, retries)
    decreases |events|, 1
  {
    if events == [] then Initial() else Step(After(events[..|events| - 1], retries), events[|events| - 1], retries)
  }

  lemma {:induction false} RunKeepsInv(events: seq<Event>, retries: nat)
    requires IsRun(events, retries)
    ensures Inv(After(events, retries), retries)
  {
    if events != [] {
      RunKeepsInv(events[..|events| - 1], retries);
      StepKeepsInv(After(events[..|events| - 1], retries), events[|events| - 1], retries);
    }
  }

  /** In every reachable state each enqueued email is in exactly one place, and nothing else is anywhere. */
  lemma ExactlyOnePlace(events: seq<Event>, retries: nat, id: nat)
    requires IsRun(events, retries)
    ensures var s := After(events, retries);
            Count(s.queue, id) + Count(s.sending, id) + Count(s.waiting, id)
            + Count(s.delivered, id) + Count(s.dropped, id) + Count(s.abandoned, id) == Flag(id < s.nextId)
  {
    RunKeepsInv(events, retries);
    assert Everywhere(After(events, retries), id) == Flag(id < After(events, retries).nextId);
  }

  /** No email is sent more than `len(retry_delays) + 1` times; all sends are paid for by enqueues. */
  lemma SendsAreBounded(events: seq<Event>, retries: nat, id: nat)
    requires IsRun(events, retries)
    ensures var s := After(events, retries);
            Count(s.sends, id) <= retries + 1 && |s.sends| <= (retries + 1) * s.nextId - Remaining(s, retries)
            && Remaining(s, retries) >= 0
  {
    RunKeepsInv(events, retries);
    RemainingNonNegative(After(events, retries), retries);
  }

  lemma RemainingNonNegative(s: State, retries: nat)
    requires Inv(s, retries)
    ensures Remaining(s, retries) >= 0
  {
    LeftNonNegative(s.queue, retries);
    LeftNonNegative(s.waiting, retries);
    if s.sending != [] {
      assert s.sending == [s.sending[0]] && s.sending[0] in s.sending;
      LeftOfOne(s.sending[0], retries);
    }
  }

  /** A failing send drops the email exactly when it was the last one allowed; the delay index is in range otherwise. */
  lemma DroppedAfterLastTry(s: State, retries: nat)
    requires Inv(s, retries) && |s.sending| == 1
    ensures var item, t := s.sending[0], Step(s, Finish(TransientFailure), retries);
            && (t.dropped != s.dropped <==> Count(s.sends, item.id) == retries + 1)
            && (t.dropped == s.dropped <==> item.attempt < retries && t.waiting == s.waiting + [Item(item.id, item.attempt + 1)])
  {
    assert s.sending[0] in s.sending;
    assert |s.dropped + [s.sending[0]]| != |s.dropped|;
  }

  function Takes(events: seq<Event>): nat {
    if events == [] then 0 else Takes(events[..|events| - 1]) + Flag(events[|events| - 1].Take?)
  }

  /** Once nothing more is enqueued, only as many sends follow as remained: the queue comes to rest. */
  lemma {:induction false} QueueComesToRest(events: seq<Event>, n: nat, retries: nat)
    requires IsRun(events, retries) && n <= |events| && IsRun(events[..n], retries)
    requires forall i :: n <= i < |events| ==> !events[i].Enqueue?
    ensures Takes(events) - Takes(events[..n]) + Remaining(After(events, retries), retries)
            <= Remaining(After(events[..n], retries), retries)
    decreases |events|
  {
    if n < |events| {
      var m := |events| - 1;
      assert events[..m][..n] == events[..n];
      QueueComesToRest(events[..m], n, retries);
      RunKeepsInv(events[..m], retries);
      StepRemaining(After(events[..m], retries), events[m], retries);
    } else {
      assert events[..n] == events;
    }
  }

  /** Delivered, dropped and abandoned are final, and only a stop abandons. */
  lemma FinalIsFinal(s: State, e: Event, retries: nat)
    requires Enabled(s, e)
    ensures var t := Step(s, e, retries);
            && s.delivered <= t.delivered && s.dropped <= t.dropped && s.abandoned <= t.abandoned
            && (t.abandoned != s.abandoned ==> (e.Stop? && s.worker) || (e.Fire? && s.stopped))
  {
  }

  /** With a worker at rest and no timer left, every email was delivered, dropped or lost to a stop. */
  lemma RestMeansSettled(events: seq<Event>, retries: nat, id: nat)
    requires IsRun(events, retries)
    requires var s := After(events, retries); s.worker && s.waiting == [] && !Enabled(s, Take) && s.sending == []
    ensures var s := After(events, retries);
            && Count(s.delivered, id) + Count(s.dropped, id) + Count(s.abandoned, id) == Flag(id < s.nextId)
            && ((forall e :: e in events ==> !e.Stop?) ==> s.abandoned == [])
  {
    ExactlyOnePlace(events, retries, id);
    if forall e :: e in events ==> !e.Stop? { NeverStopped(events, retries); }
  }

  lemma {:induction false} NeverStopped(events: seq<Event>, retries: nat)
    requires IsRun(events, retries) && forall e :: e in events ==> !e.Stop?
    ensures After(events, retries).abandoned == [] && !After(events, retries).stopped
  {
    if events != [] {
      var n := |events| - 1;
      assert forall e :: e in events[..n] ==> e in events;
      assert events[n] in events;
      NeverStopped(events[..n], retries);
    }
  }

  // ---------------------------------------------------------------------
  // Where an email ends, from the events
  // ---------------------------------------------------------------------

  /** The `i`th event ends a send of `id` this way. */
  ghost predicate SendEnded(events: seq<Event>, i: nat, id: nat, outcome: Outcome, retries: nat) {
    && i < |events| && events[i] == Finish(outcome) && IsRun(events[..i], retries)
    && var s := After(events[..i], retries); s.sending != [] && s.sending[0].id == id
  }

  /** It ends one for good without delivering: a hopeless failure, or any failure of the last send allowed. */
  ghost predicate SendGaveUp(events: seq<Event>, i: nat, id: nat, retries: nat) {
    || SendEnded(events, i, id, PermanentFailure, retries)
    || SendEnded(events, i, id, UnexpectedError, retries)
    || (SendEnded(events, i, id, TransientFailure, retries) && Count(After(events[..i], retries).sends, id) == retries + 1)
  }

  /** It stops the worker during a send of `id`, or fires its timer on a stopped dispatcher. */
  ghost predicate CutOff(events: seq<Event>, i: nat, id: nat, retries: nat) {
    && i < |events| && IsRun(events[..i], retries)
    && var s := After(events[..i], retries);
       || (events[i].Stop? && s.worker && s.sending != [] && s.sending[0].id == id)
       || (events[i].Fire? && s.stopped && events[i].timer < |s.waiting| && s.waiting[events[i].timer].id == id)
  }

  ghost predicate WasDelivered(events: seq<Event>, id: nat, retries: nat) {
    exists i :: 0 <= i < |events| && SendEnded(events, i, id, Sent, retries)
  }

  ghost predicate WasDropped(events: seq<Event>, id: nat, retries: nat) {
    exists i :: 0 <= i < |events| && SendGaveUp(events, i, id, retries)
  }

  ghost predicate WasCutOff(events: seq<Event>, id: nat, retries: nat) {
    exists i :: 0 <= i < |events| && CutOff(events, i, id, retries)
  }

  lemma OnlyTheLastIsNew(events: seq<Event>, id: nat, retries: nat)
    requires events != []
    ensures var n := |events| - 1;
            && (WasDelivered(events, id, retries)
                <==> WasDelivered(events[..n], id, retries) || SendEnded(events, n, id, Sent, retries))
            && (WasDropped(events, id, retries)
                <==> WasDropped(events[..n], id, retries) || SendGaveUp(events, n, id, retries))
            && (WasCutOff(events, id, retries)
                <==> WasCutOff(events[..n], id, retries) || CutOff(events, n, id, retries))
  {
    var n := |events| - 1;
    var before := events[..n];
    forall i | 0 <= i < n
      ensures SendEnded(events, i, id, Sent, retries) <==> SendEnded(before, i, id, Sent, retries)
      ensures SendGaveUp(events, i, id, retries) <==> SendGaveUp(before, i, id, retries)
      ensures CutOff(events, i, id, retries) <==> CutOff(before, i, id, retries)
    {
      assert before[..i] == events[..i];
    }
  }

  /** What one event adds to the three final places. */
  lemma FinalStep(s: State, e: Event, retries: nat, id: nat)
    requires Enabled(s, e) && |s.sending| <= 1
    ensures var t := Step(s, e, retries);
            var done := e.Finish? && s.sending[0].id == id;
            && Count(t.delivered, id) == Count(s.delivered, id) + Flag(done && e.outcome == Sent)
            && Count(t.dropped, id) == Count(s.dropped, id)
                 + Flag(done && e.outcome != Sent && (e.outcome == TransientFailure ==> s.sending[0].attempt >= retries))
            && Count(t.abandoned, id) == Count(s.abandoned, id)
                 + Flag(|| (e.Stop? && s.worker && s.sending != [] && s.sending[0].id == id)
                        || (e.Fire? && s.stopped && s.waiting[e.timer].id == id))
  {
    if e.Finish? {
      FinishCounts(s, e.outcome, retries, id);
    } else if e.Fire? {
      CountAppend(s.abandoned, s.waiting[e.timer], id);
    } else if e.Stop? && s.worker {
      StopCounts(s, id);
    }
  }

  lemma FinishCounts(s: State, outcome: Outcome, retries: nat, id: nat)
    requires |s.sending| == 1
    ensures var t, item := Step(s, Finish(outcome), retries), s.sending[0];
            && t.abandoned == s.abandoned
            && Count(t.delivered, id) == Count(s.delivered, id) + Flag(item.id == id && outcome == Sent)
            && Count(t.dropped, id) == Count(s.dropped, id)
                 + Flag(item.id == id && outcome != Sent && (outcome == TransientFailure ==> item.attempt >= retries))
  {
    var t, item := Step(s, Finish(outcome), retries), s.sending[0];
    var lost := outcome != Sent && (outcome == TransientFailure ==> item.attempt >= retries);
    CountGrown(s.delivered, t.delivered, item, outcome == Sent, id);
    CountGrown(s.dropped, t.dropped, item, lost, id);
  }

  lemma CountGrown(before: seq<Item>, after: seq<Item>, item: Item, grown: bool, id: nat)
    requires after == if grown then before + [item] else before
    ensures Count(after, id) == Count(before, id) + Flag(item.id == id && grown)
  {
    if grown { CountAppend(before, item, id); }
  }

  lemma StopCounts(s: State, id: nat)
    requires |s.sending| <= 1
    ensures Count(s.abandoned + s.sending, id) == Count(s.abandoned, id) + Flag(s.sending != [] && s.sending[0].id == id)
  {
    if s.sending == [] {
      assert s.abandoned + s.sending == s.abandoned;
    } else {
      assert s.sending == [s.sending[0]];
      CountAppend(s.abandoned, s.sending[0], id);
    }
  }

  lemma LastSendOf(events: seq<Event>, retries: nat, id: nat)
    requires events != [] && IsRun(events, retries)
    ensures var n := |events| - 1;
            var s, e := After(events[..n], retries), events[n];
            && Enabled(s, e) && |s.sending| <= 1 && After(events, retries) == Step(s, e, retries)
            && (SendGaveUp(events, n, id, retries) <==>
                  e.Finish? && s.sending[0].id == id && e.outcome != Sent
                  && (e.outcome == TransientFailure ==> s.sending[0].attempt >= retries))
  {
    var n := |events| - 1;
    RunKeepsInv(events[..n], retries);
    var s := After(events[..n], retries);
    if s.sending != [] { assert s.sending[0] in s.sending; }
  }

  /**
   Over any run: an email is delivered exactly when a send of it ended well, dropped exactly when one failed for
   good or failed at the last send allowed, and lost to a stop exactly when the stop or its timer found it so.
   */
  lemma {:induction false} EndsWhereItShould(events: seq<Event>, retries: nat, id: nat)
    requires IsRun(events, retries)
    ensures var s := After(events, retries);
            && (Count(s.delivered, id) > 0 <==> WasDelivered(events, id, retries))
            && (Count(s.dropped, id) > 0 <==> WasDropped(events, id, retries))
            && (Count(s.abandoned, id) > 0 <==> WasCutOff(events, id, retries))
  {
    if events != [] {
      var n := |events| - 1;
      EndsWhereItShould(events[..n], retries, id);
      OnlyTheLastIsNew(events, id, retries);
      LastSendOf(events, retries, id);
      FinalStep(After(events[..n], retries), events[n], retries, id);
    }
  }

  /** Once an email was delivered, dropped or cut off, no send of it starts. */
  lemma NoSendAfterTheEnd(events: seq<Event>, retries: nat, id: nat)
    requires IsRun(events, retries) && Enabled(After(events, retries), Take)
    requires WasDelivered(events, id, retries) || WasDropped(events, id, retries) || WasCutOff(events, id, retries)
    ensures After(events, retries).queue[0].id != id
  {
    EndsWhereItShould(events, retries, id);
    ExactlyOnePlace(events, retries, id);
    var s := After(events, retries);
    CountMember(s.queue, s.queue[0]);
  }

  /** The ids of items never sent before, in order. */
  function FirstTries(items: seq<Item>): seq<nat> {
    if items == [] then []
    else FirstTries(items[..|items| - 1]) + (if items[|items| - 1].attempt == 0 then [items[|items| - 1].id] else [])
  }

  lemma {:induction false} FirstTriesConcat(a: seq<Item>, b: seq<Item>)
    ensures FirstTries(a + b) == FirstTries(a) + FirstTries(b)
  {
    if b == [] {
      assert a + b == a;
    } else {
      var n := |b| - 1;
      FirstTriesConcat(a, b[..n]);
      assert (a + b)[..|a + b| - 1] == a + b[..n];
    }
  }

  lemma FirstTryOfOne(item: Item)
    ensures FirstTries([item]) == if item.attempt == 0 then [item.id] else []
  {
    assert [item][..0] == [];
  }

  function UpTo(n: nat): seq<nat> {
    if n == 0 then [] else UpTo(n - 1) + [n - 1]
  }

  /** First sends happen in the order of the enqueues, none left out: those made, then those still in the queue. */
  ghost predicate InTurn(s: State) {
    && FirstTries(s.sends) + FirstTries(s.queue) == UpTo(s.nextId)
    && forall item :: item in s.waiting ==> item.attempt > 0
  }

  lemma EnqueueInTurn(sends: seq<Item>, queue: seq<Item>, n: nat)
    requires FirstTries(sends) + FirstTries(queue) == UpTo(n)
    ensures FirstTries(sends) + FirstTries(queue + [Item(n, 0)]) == UpTo(n + 1)
  {
    FirstTriesConcat(queue, [Item(n, 0)]);
    FirstTryOfOne(Item(n, 0));
    assert FirstTries(sends) + (FirstTries(queue) + [n]) == (FirstTries(sends) + FirstTries(queue)) + [n];
  }

  lemma TakeInTurn(sends: seq<Item>, queue: seq<Item>)
    requires queue != []
    ensures FirstTries(sends + [queue[0]]) + FirstTries(queue[1..]) == FirstTries(sends) + FirstTries(queue)
  {
    var first, rest := [queue[0]], queue[1..];
    assert queue == first + rest;
    FirstTriesConcat(first, rest);
    FirstTriesConcat(sends, first);
    var a, b, c := FirstTries(sends), FirstTries(first), FirstTries(rest);
    assert (a + b) + c == a + (b + c);
  }

  lemma AgainInTurn(queue: seq<Item>, item: Item)
    requires item.attempt > 0
    ensures FirstTries(queue + [item]) == FirstTries(queue)
  {
    FirstTriesConcat(queue, [item]);
    FirstTryOfOne(item);
    assert FirstTries(queue) + [] == FirstTries(queue);
  }

  lemma StepInTurn(s: State, e: Event, retries: nat)
    requires Enabled(s, e) && InTurn(s)
    ensures InTurn(Step(s, e, retries))
  {
    var t := Step(s, e, retries);
    forall item | item in t.waiting ensures item.attempt > 0 { StillFailedOnce(s, e, retries, item); }
    if e.Enqueue? {
      EnqueueInTurn(s.sends, s.queue, s.nextId);
    } else if e.Take? {
      TakeInTurn(s.sends, s.queue);
    } else if e.Fire? && !s.stopped {
      assert s.waiting[e.timer] in s.waiting;
      AgainInTurn(s.queue, s.waiting[e.timer]);
    }
  }

  lemma StillFailedOnce(s: State, e: Event, retries: nat, item: Item)
    requires Enabled(s, e) && item in Step(s, e, retries).waiting
    ensures item in s.waiting || item.attempt > 0
  {
  }

  lemma {:induction false} FirstSendsInOrder(events: seq<Event>, retries: nat)
    requires IsRun(events, retries)
    ensures InTurn(After(events, retries))
  {
    if events != [] {
      FirstSendsInOrder(events[..|events| - 1], retries);
      StepInTurn(After(events[..|events| - 1], retries), events[|events| - 1], retries);
    }
  }

  // ---------------------------------------------------------------------
  // The dispatcher
  // ---------------------------------------------------------------------

  function Max(a: real, b: real): real {
    if a >= b then a else b
  }

  class EmailDispatcher {
    const retryDelays: seq<real>
    const jitterFrac: real
    var queue: seq<Item>
    var sending: seq<Item>
    var waiting: seq<Item>
    var nextId: nat
    var worker: bool
    var stopped: bool
    ghost var delivered: seq<Item>
    ghost var dropped: seq<Item>
    ghost var abandoned: seq<Item>
    ghost var sends: seq<Item>

    ghost function Snapshot(): State
      reads this
    {
      State(queue, sending, waiting, delivered, dropped, abandoned, sends, nextId, worker, stopped)
    }

    ghost predicate Valid()
      reads this
    {
      Inv(Snapshot(), |retryDelays|)
    }

    constructor (retryDelays: seq<real>, jitterFrac: real)
      ensures Valid() && Snapshot() == Initial() && this.retryDelays == retryDelays && this.jitterFrac == jitterFrac
    {
      this.retryDelays, this.jitterFrac := retryDelays, jitterFrac;
      queue, sending, waiting, nextId, worker, stopped := [], [], [], 0, false, false;
      delivered, dropped, abandoned, sends := [], [], [], [];
      new;
      InitialInv(|retryDelays|);
    }

    method EnqueueEmail() returns (id: nat)
      requires Valid()
      modifies this
      ensures Valid() && Snapshot() == Step(old(Snapshot()), Enqueue, |retryDelays|)
      ensures id == old(nextId) && nextId == id + 1 && queue == old(queue) + [Item(id, 0)]
      ensures unchanged(`sending, `waiting, `worker, `stopped, `delivered, `dropped, `abandoned, `sends)
    {
      ghost var s := Snapshot();
      StepKeepsInv(s, Enqueue, |retryDelays|);
      id := nextId;
      queue := queue + [Item(id, 0)];
      nextId := nextId + 1;
      assert Snapshot() == Step(s, Enqueue, |retryDelays|);
    }

    method StartWorker()
      requires Valid()
      modifies this
      ensures Valid() && Snapshot() == Step(old(Snapshot()), Start, |retryDelays|)
      ensures worker && stopped == (old(stopped) && old(worker))
      ensures unchanged(`queue, `sending, `waiting, `nextId, `delivered, `dropped, `abandoned, `sends)
    {
      StepKeepsInv(Snapshot(), Start, |retryDelays|);
      if worker { return; }
      stopped := false;
      worker := true;
    }

    /** Cancelling the worker abandons the send under way; queued emails stay queued. */
    method StopWorker()
      requires Valid()
      modifies this
      ensures Valid() && Snapshot() == Step(old(Snapshot()), Stop, |retryDelays|)
      ensures !worker && sending == [] && stopped == (old(stopped) || old(worker))
      ensures abandoned == old(abandoned) + old(sending)
      ensures unchanged(`queue, `waiting, `nextId, `delivered, `dropped, `sends)
    {
      ghost var s := Snapshot();
      StepKeepsInv(s, Stop, |retryDelays|);
      if !worker { return; }
      stopped := true;
      abandoned := abandoned + sending;
      sending := [];
      worker := false;
    }

    /** The worker takes the oldest email and starts a send. */
    method TakeNext() returns (item: Item)
      requires Valid() && worker && sending == [] && queue != []
      modifies this
      ensures Valid() && Snapshot() == Step(old(Snapshot()), Take, |retryDelays|)
      ensures sending == [item] && old(queue) == [item] + queue && sends == old(sends) + [item]
      ensures unchanged(`waiting, `nextId, `worker, `stopped, `delivered, `dropped, `abandoned)
    {
      ghost var s := Snapshot();
      StepKeepsInv(s, Take, |retryDelays|);
      item := queue[0];
      queue := queue[1..];
      sending := [item];
      sends := sends + [item];
    }

    /** The send is over; `offset` is the random part of the delay. The delay is given when a retry follows. */
    method Process(outcome: Outcome, offset: real) returns (delay: real)
      requires Valid() && |sending| == 1
      modifies this
      ensures Valid() && Snapshot() == Step(old(Snapshot()), Finish(outcome), |retryDelays|)
      ensures sending == [] && unchanged(`queue, `nextId, `worker, `stopped, `abandoned, `sends)
      ensures var item := old(sending)[0];
              var again := outcome == TransientFailure && item.attempt < |retryDelays|;
              && delivered == (if outcome == Sent then old(delivered) + [item] else old(delivered))
              && waiting == (if again then old(waiting) + [Item(item.id, item.attempt + 1)] else old(waiting))
              && dropped == (if outcome == Sent || again then old(dropped) else old(dropped) + [item])
              && (again && retryDelays[item.attempt] + offset >= 0.0 ==> delay == retryDelays[item.attempt] + offset)
              && (again && retryDelays[item.attempt] + offset < 0.0 ==> delay == 0.0)
    {
      ghost var s := Snapshot();
      var item := sending[0];
      sending := [];
      delay := 0.0;
      if outcome == Sent {
        delivered := delivered + [item];
      } else if outcome == TransientFailure && item.attempt < |retryDelays| {
        delay := Max(0.0, retryDelays[item.attempt] + offset);
        item := item.(attempt := item.attempt + 1);
        waiting := waiting + [item];
      } else {
        dropped := dropped + [item];
      }
      assert Snapshot() == Step(s, Finish(outcome), |retryDelays|);
      assert Valid() by { StepKeepsInv(s, Finish(outcome), |retryDelays|); }
    }

    /** A retry timer runs out: back to the queue, unless the dispatcher was stopped. */
    method TimerFired(i: nat)
      requires Valid() && i < |waiting|
      modifies this
      ensures Valid() && Snapshot() == Step(old(Snapshot()), Fire(i), |retryDelays|)
      ensures waiting == old(waiting)[..i] + old(waiting)[i + 1..]
      ensures queue == if stopped then old(queue) else old(queue) + [old(waiting)[i]]
      ensures abandoned == if stopped then old(abandoned) + [old(waiting)[i]] else old(abandoned)
      ensures unchanged(`sending, `nextId, `worker, `stopped, `delivered, `dropped, `sends)
    {
      ghost var s := Snapshot();
      var item := waiting[i];
      waiting := Without(waiting, i);
      if stopped {
        abandoned := abandoned + [item];
      } else {
        queue := queue + [item];
      }
      assert Snapshot() == Step(s, Fire(i), |retryDelays|);
      assert Valid() by { StepKeepsInv(s, Fire(i), |retryDelays|); }
    }
  }
}
