/**
 The document store: publish, update, fork, retitle and delete, one call or statement after another.
 Calls come after their permission check. An update is one `BEGIN IMMEDIATE` transaction; a fork is two
 steps, the copy with its seed revision and the retitle.
 */
module DocStore {
  import opened Base
  import opened DocVersions

  /** Text operations the store takes from its language and its markdown helper. */
  datatype Text = Text(utf8Len: string -> nat, extractTitle: string -> string)

  datatype Error =
    | NotFound
    | Conflict(version: nat, title: string, content: string)
    | ContentTooLarge
    | CannotForkOwnDoc

  predicate TooLarge(x: Text, content: Option<string>, title: Option<string>) {
    || (content.Some? && x.utf8Len(content.value) > MAX_CONTENT_BYTES)
    || (title.Some? && |title.value| > MAX_TITLE_CHARS)
  }

  /** A new document starts at version 1; an empty title is taken from the content. */
  function NewDocument(x: Text, title: Option<string>, content: string, owner: Option<string>): Document {
    Document(if title.Some? && title.value != "" then title.value else x.extractTitle(content), content, 1, owner, None)
  }

  function CopyOf(src: string, s: Document, newOwner: string): Document {
    Document(s.title, s.content, 1, Some(newOwner), Some(src))
  }

  function ForkTitle(s: Document, title: Option<string>): string {
    if title.Some? && title.value != "" then title.value else "Fork of " + s.title
  }

  /** What an update snapshots before it writes. */
  function Superseded(t: Tables, id: string): Revision
    requires id in t.documents
  {
    var doc := t.documents[id];
    Revision(t.nextId, id, doc.version, doc.title, doc.content)
  }

  // ---------------------------------------------------------------------
  // Runs
  // ---------------------------------------------------------------------

  datatype Op =
    | Publish(id: string, title: Option<string>, content: string, owner: Option<string>)
    | Update(id: string, attempt: Attempt)
    | Copy(src: string, id: string, newOwner: string, viewable: bool)
    | Retitle(id: string, newTitle: string)
    | Delete(id: string)

  /** The tables, and beside them the history of every document in them. */
  datatype Store = Store(t: Tables, hs: Histories)

  predicate Publishes(x: Text, s: Store, op: Op) {
    op.Publish? && op.id !in s.t.documents && !TooLarge(x, Some(op.content), op.title)
  }

  /** An update that gets as far as comparing versions. */
  predicate Sends(x: Text, s: Store, op: Op) {
    op.Update? && op.id in s.t.documents && !TooLarge(x, op.attempt.content, op.attempt.title)
  }

  predicate Copies(s: Store, op: Op) {
    && op.Copy? && op.id !in s.t.documents
    && op.src in s.t.documents && s.t.documents[op.src].owner != Some(op.newOwner) && op.viewable
  }

  /** Only forks are retitled, and not once they are deleted. */
  predicate Retitles(s: Store, op: Op) {
    op.Retitle? && op.id in s.t.documents && op.id in s.hs && s.hs[op.id].seed.Some?
  }

  function Do(x: Text, s: Store, op: Op): Store {
    match op
    case Publish(id, title, content, owner) =>
      if !Publishes(x, s, op) then s
      else
        var doc := NewDocument(x, title, content, owner);
        Store(Created(s.t, id, doc, None), s.hs[id := History(None, [TextOf(doc)])])
    case Update(id, a) =>
      if !Sends(x, s, op) || id !in s.hs || s.t.documents[id].version != a.ifVersion then s
      else
        Store(Committed(s.t, Superseded(s.t, id), Refreshed(s.t.documents[id], a)), s.hs[id := Attempted(s.hs[id], a)])
    case Copy(src, id, newOwner, viewable) =>
      if !Copies(s, op) then s
      else
        var text := TextOf(s.t.documents[src]);
        Store(Created(s.t, id, CopyOf(src, s.t.documents[src], newOwner), Some(text)), s.hs[id := History(Some(text), [text])])
    case Retitle(id, title) =>
      if !Retitles(s, op) then s else Store(Renamed(s.t, id, title), s.hs[id := Retitled(s.hs[id], title)])
    case Delete(id) => Store(Removed(s.t, id), s.hs - {id})
  }

  ghost predicate StoreOk(s: Store) {
    TablesOk(s.t, s.hs)
  }

  lemma UpdateKeepsOk(x: Text, s: Store, id: string, a: Attempt)
    requires StoreOk(s)
    ensures StoreOk(Do(x, s, Update(id, a)))
  {
    if Sends(x, s, Update(id, a)) {
      VersionIsCurrent(s.t, s.hs, id);
      if s.t.documents[id].version == a.ifVersion { CommitOk(s.t, s.hs, Superseded(s.t, id), a); }
    }
  }

  lemma PublishKeepsOk(x: Text, s: Store, op: Op)
    requires StoreOk(s) && Publishes(x, s, op)
    ensures StoreOk(Do(x, s, op))
  {
    CreateOk(s.t, s.hs, op.id, NewDocument(x, op.title, op.content, op.owner), None);
  }

  lemma CopyKeepsOk(x: Text, s: Store, op: Op)
    requires StoreOk(s) && Copies(s, op)
    ensures StoreOk(Do(x, s, op))
  {
    var source := s.t.documents[op.src];
    CreateOk(s.t, s.hs, op.id, CopyOf(op.src, source, op.newOwner), Some(TextOf(source)));
  }

  /** Every call keeps tables and histories in agreement. */
  lemma DoKeepsOk(x: Text, s: Store, op: Op)
    requires StoreOk(s)
    ensures StoreOk(Do(x, s, op))
  {
    match op
    case Publish(_, _, _, _) => if Publishes(x, s, op) { PublishKeepsOk(x, s, op); }
    case Update(id, a) => UpdateKeepsOk(x, s, id, a);
    case Copy(_, _, _, _) => if Copies(s, op) { CopyKeepsOk(x, s, op); }
    case Retitle(id, title) => if Retitles(s, op) { RetitleOk(s.t, s.hs, id, title); }
    case Delete(id) => RemoveOk(s.t, s.hs, id);
  }

  function Run(x: Text, ops: seq<Op>): Store {
    if ops == [] then Store(Tables(map[], [], 0), map[]) else Do(x, Run(x, ops[..|ops| - 1]), ops[|ops| - 1])
  }

  lemma {:induction false} RunKeepsOk(x: Text, ops: seq<Op>)
    ensures StoreOk(Run(x, ops))
  {
    if ops != [] {
      RunKeepsOk(x, ops[..|ops| - 1]);
      DoKeepsOk(x, Run(x, ops[..|ops| - 1]), ops[|ops| - 1]);
    }
  }

  /** The text `d` was last published with: the title sent, or one taken from the content when that was empty. */
  function FirstText(x: Text, ops: seq<Op>, d: string): Snapshot {
    if ops == [] then Snapshot("", "")
    else
      var before, op := ops[..|ops| - 1], ops[|ops| - 1];
      if Publishes(x, Run(x, before), op) && op.id == d
      then Snapshot(if op.title.Some? && op.title.value != "" then op.title.value else x.extractTitle(op.content), op.content)
      else FirstText(x, before, d)
  }

  /** The updates sent to `d` since it was last published, read off the calls. */
  function AttemptsSince(x: Text, ops: seq<Op>, d: string): seq<Attempt> {
    if ops == [] then []
    else
      var before, op := ops[..|ops| - 1], ops[|ops| - 1];
      if Publishes(x, Run(x, before), op) && op.id == d then []
      else if Sends(x, Run(x, before), op) && op.id == d then AttemptsSince(x, before, d) + [op.attempt]
      else AttemptsSince(x, before, d)
  }

  /** What one call does to the history of a document that is not a fork. */
  lemma HistoryStep(x: Text, s: Store, op: Op, d: string)
    requires StoreOk(s)
    requires d in Do(x, s, op).hs && Do(x, s, op).hs[d].seed.None?
    ensures var h := Do(x, s, op).hs[d];
            if Publishes(x, s, op) && op.id == d
            then h == History(None, [TextOf(NewDocument(x, op.title, op.content, op.owner))])
            else
              && d in s.hs && s.hs[d].seed.None?
              && h == if Sends(x, s, op) && op.id == d then Attempted(s.hs[d], op.attempt) else s.hs[d]
  {
    if Sends(x, s, op) { VersionIsCurrent(s.t, s.hs, op.id); }
  }

  /** In every run the history of a published document is its first text served the updates sent since. */
  lemma {:induction false} HistoryFollowsCalls(x: Text, ops: seq<Op>, d: string)
    requires d in Run(x, ops).hs && Run(x, ops).hs[d].seed.None?
    ensures Run(x, ops).hs[d] == Served(History(None, [FirstText(x, ops, d)]), AttemptsSince(x, ops, d))
  {
    if ops != [] {
      var before, op := ops[..|ops| - 1], ops[|ops| - 1];
      var s := Run(x, before);
      RunKeepsOk(x, before);
      HistoryStep(x, s, op, d);
      if !(Publishes(x, s, op) && op.id == d) {
        HistoryFollowsCalls(x, before, d);
        if Sends(x, s, op) && op.id == d {
          var attempts := AttemptsSince(x, before, d) + [op.attempt];
          assert attempts[..|attempts| - 1] == AttemptsSince(x, before, d);
        }
      }
    }
  }

  /**
   Over any run of publishes, updates, forks, retitles and deletes: a published document's version is one
   plus the number of updates sent since that won, its title and its content are each what the last of
   these that sent one sent, or the first, and its stored revisions are exactly the last
   min(50, version - 1) superseded states in order.
   */
  lemma PublishedInEveryRun(x: Text, ops: seq<Op>, d: string)
    requires d in Run(x, ops).t.documents && d in Run(x, ops).hs && Run(x, ops).hs[d].seed.None?
    ensures var first, attempts, doc := FirstText(x, ops, d), AttemptsSince(x, ops, d), Run(x, ops).t.documents[d];
            && doc.version == 1 + |Winners(1, attempts)|
            && doc.title == LastTitle(first.title, Winners(1, attempts))
            && doc.content == LastContent(first.content, Winners(1, attempts))
            && Shows(doc, RevisionsOf(Run(x, ops).t.revisions, d), Served(History(None, [first]), attempts).states)
  {
    var first, attempts := FirstText(x, ops, d), AttemptsSince(x, ops, d);
    RunKeepsOk(x, ops);
    HistoryFollowsCalls(x, ops, d);
    PublishedDocument(Run(x, ops).t, Run(x, ops).hs, d, first, attempts);
    LastSentStays(History(None, [first]), attempts);
  }

  lemma OwnerStep(x: Text, s: Store, op: Op, d: string)
    requires StoreOk(s) && d in s.t.documents && op != Delete(d)
    ensures d in Do(x, s, op).t.documents
    ensures var was, now := s.t.documents[d], Do(x, s, op).t.documents[d];
            && now.owner == was.owner && now.version >= was.version
            && now.forkedFrom == if op.Delete? && was.forkedFrom == Some(op.id) then None else was.forkedFrom
  {
  }

  /** Until it is deleted a document keeps its owner, and its fork link until the source is deleted. */
  lemma {:induction false} OwnerStays(x: Text, ops: seq<Op>, n: nat, d: string)
    requires n <= |ops| && d in Run(x, ops[..n]).t.documents && Delete(d) !in ops[n..]
    ensures d in Run(x, ops).t.documents
    ensures var was, now := Run(x, ops[..n]).t.documents[d], Run(x, ops).t.documents[d];
            && now.owner == was.owner && now.version >= was.version
            && now.forkedFrom == if was.forkedFrom.Some? && Delete(was.forkedFrom.value) in ops[n..] then None else was.forkedFrom
    decreases |ops|
  {
    if n == |ops| {
      assert ops[..n] == ops;
    } else {
      var before, op := ops[..|ops| - 1], ops[|ops| - 1];
      assert before[..n] == ops[..n] && ops[n..] == before[n..] + [op];
      OwnerStays(x, before, n, d);
      RunKeepsOk(x, before);
      OwnerStep(x, Run(x, before), op, d);
    }
  }

  // ---------------------------------------------------------------------
  // The imperative store
  // ---------------------------------------------------------------------

  class DocumentStore {
    const text: Text
    var documents: map<string, Document>
    var revisions: seq<Revision>
    var nextId: nat
    ghost var histories: Histories

    ghost function State(): Store
      reads this
    {
      Store(Tables(documents, revisions, nextId), histories)
    }

    ghost predicate Valid()
      reads this
    {
      StoreOk(State())
    }

    /** More than a million bytes of content or 500 characters of title. */
    predicate Oversized(a: Attempt) {
      (a.content.Some? && text.utf8Len(a.content.value) > 1000000) || (a.title.Some? && |a.title.value| > 500)
    }

    constructor (text: Text)
      ensures Valid() && State() == Run(text, []) && this.text == text
    {
      this.text := text;
      documents, revisions, nextId, histories := map[], [], 0, map[];
    }

    method PublishNew(id: string, title: Option<string>, content: string, owner: Option<string>)
      returns (r: Result<Document, Error>)
      requires Valid() && id !in documents
      modifies this
      ensures Valid() && State() == Do(text, old(State()), Publish(id, title, content, owner))
      ensures r == Err(ContentTooLarge) <==> text.utf8Len(content) > 1000000 || (title.Some? && |title.value| > 500)
      ensures r.Err? ==> r == Err(ContentTooLarge) && unchanged(this)
      ensures r.Ok? ==>
                && r.value.content == content && r.value.owner == owner && r.value.version == 1 && r.value.forkedFrom.None?
                && (title.Some? && title.value != "" ==> r.value.title == title.value)
                && (title.None? || title.value == "" ==> r.value.title == text.extractTitle(content))
                && documents == old(documents)[id := r.value] && revisions == old(revisions) && nextId == old(nextId)
    {
      ghost var s := State();
      DoKeepsOk(text, s, Publish(id, title, content, owner));
      if TooLarge(text, Some(content), title) { return Err(ContentTooLarge); }
      var resolvedTitle := if title.Some? && title.value != "" then title.value else text.extractTitle(content);
      var doc := Document(resolvedTitle, content, 1, owner, None);
      assert doc == NewDocument(text, title, content, owner);
      documents, histories := documents[id := doc], histories[id := History(None, [TextOf(doc)])];
      r := Ok(doc);
    }

    /** Compare-and-swap on the version: either nothing changes or exactly one state is added. */
    method UpdateDoc(id: string, a: Attempt) returns (r: Result<Document, Error>)
      requires Valid()
      modifies this
      ensures Valid() && State() == Do(text, old(State()), Update(id, a))
      ensures r.Err? ==> unchanged(this)
      ensures r == Err(ContentTooLarge) <==> Oversized(a)
      ensures r == Err(NotFound) <==> !Oversized(a) && id !in old(documents)
      ensures !Oversized(a) && id in old(documents) ==>
                var doc := old(documents)[id];
                if a.ifVersion != doc.version then r == Err(Conflict(doc.version, doc.title, doc.content)) else r.Ok?
      ensures r.Ok? ==>
                && id in old(documents) && documents == old(documents)[id := r.value]
                && var doc := old(documents)[id];
                   && r.value.version == doc.version + 1
                   && r.value.owner == doc.owner && r.value.forkedFrom == doc.forkedFrom
                   && (a.title.Some? ==> r.value.title == a.title.value)
                   && (a.title.None? ==> r.value.title == doc.title)
                   && (a.content.Some? ==> r.value.content == a.content.value)
                   && (a.content.None? ==> r.value.content == doc.content)
    {
      if TooLarge(text, a.content, a.title) { return Err(ContentTooLarge); }
      if id !in documents { return Err(NotFound); }
      var doc := documents[id];
      VersionIsCurrent(State().t, histories, id);
      if doc.version != a.ifVersion { return Err(Conflict(doc.version, doc.title, doc.content)); }
      UpdateKeepsOk(text, State(), id, a);
      var refreshed := Commit(id, doc, a);
      r := Ok(refreshed);
    }

    /** The write part of an update: snapshot, new row, prune. */
    method Commit(id: string, doc: Document, a: Attempt) returns (refreshed: Document)
      requires id in documents && doc == documents[id] && id in histories
      modifies this
      ensures refreshed == Refreshed(doc, a)
      ensures State().t == Committed(old(State().t), Superseded(old(State().t), id), refreshed)
      ensures histories == old(histories)[id := Attempted(old(histories)[id], a)]
    {
      var newTitle := if a.title.Some? then a.title.value else doc.title;
      var newContent := if a.content.Some? then a.content.value else doc.content;
      revisions, nextId := revisions + [Revision(nextId, id, doc.version, doc.title, doc.content)], nextId + 1;
      refreshed := doc.(title := newTitle, content := newContent, version := doc.version + 1);
      documents, histories := documents[id := refreshed], histories[id := Attempted(histories[id], a)];
      revisions := PruneUpTo(revisions, id, MAX_REVISIONS_PER_DOC, |revisions|);
    }

    /** Check, copy, then retitle; with nobody in between it is a document with its title from the start. */
    method Fork(src: string, id: string, newOwner: string, viewable: bool, title: Option<string>)
      returns (r: Result<Document, Error>)
      requires Valid() && id !in documents
      modifies this
      ensures Valid()
      ensures r.Err? ==> unchanged(this)
      ensures r == Err(CannotForkOwnDoc) <==> src in old(documents) && old(documents)[src].owner == Some(newOwner)
      ensures r == Err(NotFound) <==>
                src !in old(documents) || (old(documents)[src].owner != Some(newOwner) && !viewable)
      ensures r.Ok? ==>
                var s := old(documents)[src];
                && r.value.content == s.content && r.value.version == 1
                && r.value.owner == Some(newOwner) && r.value.forkedFrom == Some(src)
                && (title.Some? && title.value != "" ==> r.value.title == title.value)
                && (title.None? || title.value == "" ==> r.value.title == "Fork of " + s.title)
                && documents == old(documents)[id := r.value]
                && revisions == old(revisions) + [Revision(old(nextId), id, 1, s.title, s.content)]
                && nextId == old(nextId) + 1
                && histories == old(histories)[id := History(Some(TextOf(s)), [TextOf(r.value)])]
    {
      if src !in documents { return Err(NotFound); }
      var s := documents[src];
      if s.owner == Some(newOwner) { return Err(CannotForkOwnDoc); }
      if !viewable { return Err(NotFound); }
      CopyDoc(src, id, newOwner);
      var newTitle := ForkTitle(s, title);
      if newTitle != s.title {
        RetitleDoc(id, newTitle);
        RetitledAtOnce(Some(TextOf(s)), TextOf(s), newTitle);
      }
      ghost var forked := CopyOf(src, s, newOwner).(title := newTitle);
      assert documents == old(documents)[id := forked];
      assert histories == old(histories)[id := History(Some(TextOf(s)), [TextOf(forked)])];
      r := Ok(documents[id]);
    }

    /** The copy and its seed revision. */
    method CopyDoc(src: string, id: string, newOwner: string)
      requires Valid() && id !in documents && src in documents && documents[src].owner != Some(newOwner)
      modifies this
      ensures Valid() && State() == Do(text, old(State()), Copy(src, id, newOwner, true))
    {
      ghost var s := State();
      CopyKeepsOk(text, s, Copy(src, id, newOwner, true));
      var source := documents[src];
      documents := documents[id := Document(source.title, source.content, 1, Some(newOwner), Some(src))];
      revisions := revisions + [Revision(nextId, id, 1, source.title, source.content)];
      nextId, histories := nextId + 1, histories[id := History(Some(TextOf(source)), [TextOf(source)])];
      assert State() == Do(text, s, Copy(src, id, newOwner, true));
    }

    /** The title override, a statement of its own. */
    method RetitleDoc(id: string, title: string)
      requires Valid() && (id in histories ==> histories[id].seed.Some?)
      modifies this
      ensures Valid() && State() == Do(text, old(State()), Retitle(id, title))
      ensures revisions == old(revisions) && nextId == old(nextId)
      ensures id !in old(documents) ==> documents == old(documents)
      ensures id in old(documents) ==> documents == old(documents)[id := old(documents)[id].(title := title)]
    {
      ghost var s := State();
      DoKeepsOk(text, s, Retitle(id, title));
      if id in documents {
        VersionIsCurrent(s.t, histories, id);
        documents := documents[id := documents[id].(title := title)];
        histories := histories[id := Retitled(histories[id], title)];
      }
    }

    /** Deleting cascades to the document's revisions and unlinks its forks. */
    method DeleteDoc(id: string) returns (deleted: bool)
      requires Valid()
      modifies this
      ensures Valid() && State() == Do(text, old(State()), Delete(id))
      ensures deleted <==> id in old(documents)
      ensures RevisionsOf(revisions, id) == [] && nextId == old(nextId)
      ensures documents.Keys == old(documents).Keys - {id}
      ensures forall d :: d in documents ==>
                && RevisionsOf(revisions, d) == RevisionsOf(old(revisions), d)
                && (old(documents)[d].forkedFrom == Some(id) ==> documents[d] == old(documents)[d].(forkedFrom := None))
                && (old(documents)[d].forkedFrom != Some(id) ==> documents[d] == old(documents)[d])
    {
      RemoveOk(State().t, histories, id);
      CascadedOk(revisions, id, nextId, documents.Keys);
      deleted := id in documents;
      revisions := PruneUpTo(revisions, id, 0, |revisions|);
      documents, histories := Deleted(documents, id), histories - {id};
    }
  }
}
