/**
 Versioned documents: compare-and-swap updates and the capped revision log, against the whole history
 of a document.
 */
module DocVersions {
  import opened Base

  const MAX_REVISIONS_PER_DOC: nat := 50
  const MAX_CONTENT_BYTES: nat := 1000000
  const MAX_TITLE_CHARS: nat := 500

  datatype Document = Document(title: string, content: string, version: nat, owner: Option<string>, forkedFrom: Option<string>)

  /** Ids are the autoincrement row ids, shared by all documents. */
  datatype Revision = Revision(id: nat, doc: string, version: nat, title: string, content: string)

  // ---------------------------------------------------------------------
  // Reference: the whole history of a document
  // ---------------------------------------------------------------------

  datatype Snapshot = Snapshot(title: string, content: string)

  function TextOf(doc: Document): Snapshot {
    Snapshot(doc.title, doc.content)
  }

  /** `states[v - 1]` is what the document held at version `v`; a fork also has its seed. */
  datatype History = History(seed: Option<Snapshot>, states: seq<Snapshot>)

  /** A revision without its row id. */
  datatype Logged = Logged(version: nat, snapshot: Snapshot)

  /** Every revision ever written: a fork's seed, then each superseded state in order. */
  function Ledger(h: History): (r: seq<Logged>)
  {
    (if h.seed.Some? then [Logged(1, h.seed.value)] else [])
    + seq(if |h.states| > 0 then |h.states| - 1 else 0, i requires 0 <= i < |h.states| => Logged(i + 1, h.states[i]))
  }

  function LastN<T>(s: seq<T>, n: nat): (r: seq<T>) {
    if |s| <= n then s else s[|s| - n..]
  }

  datatype Attempt = Attempt(ifVersion: nat, title: Option<string>, content: Option<string>)

  /** The only accepted version is the current one. */
  predicate Succeeds(h: History, a: Attempt) {
    h.states != [] && a.ifVersion == |h.states|
  }

  function Merged(current: Snapshot, a: Attempt): Snapshot {
    Snapshot(if a.title.Some? then a.title.value else current.title,
             if a.content.Some? then a.content.value else current.content)
  }

  function Attempted(h: History, a: Attempt): History {
    if Succeeds(h, a) then h.(states := h.states + [Merged(h.states[|h.states| - 1], a)]) else h
  }

  /** Clients that read whenever they like and send any `if_version`, served one at a time. */
  function Served(h: History, attempts: seq<Attempt>): (r: History)
    ensures |r.states| >= |h.states| && r.states[..|h.states|] == h.states && r.seed == h.seed
  {
    if attempts == [] then h
    else Attempted(Served(h, attempts[..|attempts| - 1]), attempts[|attempts| - 1])
  }

  /** Successful attempts among the first `n`. */
  function Successes(h: History, attempts: seq<Attempt>, n: nat): nat
    requires n <= |attempts|
  {
    if n == 0 then 0
    else Successes(h, attempts, n - 1) + (if Succeeds(Served(h, attempts[..n - 1]), attempts[n - 1]) then 1 else 0)
  }

  /** The version is what it was plus the number of successful updates. */
  lemma {:induction false} VersionCountsSuccesses(h: History, attempts: seq<Attempt>, n: nat)
    requires n <= |attempts|
    ensures |Served(h, attempts[..n]).states| == |h.states| + Successes(h, attempts, n)
  {
    if n > 0 {
      VersionCountsSuccesses(h, attempts, n - 1);
      assert attempts[..n][..n - 1] == attempts[..n - 1];
    }
  }

  lemma {:induction false} VersionsGrow(h: History, attempts: seq<Attempt>, i: nat, j: nat)
    requires i <= j <= |attempts|
    ensures |Served(h, attempts[..i]).states| <= |Served(h, attempts[..j]).states|
  {
    if i < j {
      VersionsGrow(h, attempts, i, j - 1);
      ServedStep(h, attempts, j);
    }
  }

  /** Each `if_version` wins at most once: no update is silently overwritten. */
  lemma EachVersionWinsOnce(h: History, attempts: seq<Attempt>, i: nat, j: nat)
    requires i < j < |attempts|
    requires Succeeds(Served(h, attempts[..i]), attempts[i]) && Succeeds(Served(h, attempts[..j]), attempts[j])
    ensures attempts[i].ifVersion < attempts[j].ifVersion
  {
    assert attempts[..i + 1][..i] == attempts[..i];
    VersionsGrow(h, attempts, i + 1, j);
  }

  /**
   A winning update merges into exactly the state its client named by `if_version`, and that
   state stays on record unchanged.
   */
  lemma WinnerMergesItsBase(h: History, attempts: seq<Attempt>, i: nat, n: nat)
    requires i < n <= |attempts| && Succeeds(Served(h, attempts[..i]), attempts[i])
    ensures var states := Served(h, attempts[..n]).states;
            var v := attempts[i].ifVersion;
            && v < |states| && v >= 1
            && states[v].title == (if attempts[i].title.Some? then attempts[i].title.value else states[v - 1].title)
            && states[v].content == (if attempts[i].content.Some? then attempts[i].content.value else states[v - 1].content)
  {
    assert attempts[..i + 1][..i] == attempts[..i];
    StatesKept(h, attempts, i + 1, n);
  }

  lemma ServedStep(h: History, attempts: seq<Attempt>, j: nat)
    requires 0 < j <= |attempts|
    ensures var before := Served(h, attempts[..j - 1]);
            Served(h, attempts[..j]) == Attempted(before, attempts[j - 1]) && before.states <= Served(h, attempts[..j]).states
  {
    assert attempts[..j][..j - 1] == attempts[..j - 1];
  }

  lemma {:induction false} StatesKept(h: History, attempts: seq<Attempt>, i: nat, j: nat)
    requires i <= j <= |attempts|
    ensures Served(h, attempts[..i]).states <= Served(h, attempts[..j]).states
  {
    if i < j {
      StatesKept(h, attempts, i, j - 1);
      ServedStep(h, attempts, j);
    }
  }

  /** The attempts that win on a document at version `v`, in order: each names the version the earlier ones left. */
  function Winners(v: nat, attempts: seq<Attempt>): seq<Attempt> {
    if attempts == [] then []
    else
      var before, a := Winners(v, attempts[..|attempts| - 1]), attempts[|attempts| - 1];
      if a.ifVersion == v + |before| then before + [a] else before
  }

  /** The title the last of `winners` that sent one sent, or `first`. */
  function LastTitle(first: string, winners: seq<Attempt>): string {
    if winners == [] then first
    else if winners[|winners| - 1].title.Some? then winners[|winners| - 1].title.value
    else LastTitle(first, winners[..|winners| - 1])
  }

  function LastContent(first: string, winners: seq<Attempt>): string {
    if winners == [] then first
    else if winners[|winners| - 1].content.Some? then winners[|winners| - 1].content.value
    else LastContent(first, winners[..|winners| - 1])
  }

  /** The version counts the winners; title and content are each what the last winner that sent one sent. */
  lemma {:induction false} LastSentStays(h: History, attempts: seq<Attempt>)
    requires h.states != []
    ensures var states, winners := Served(h, attempts).states, Winners(|h.states|, attempts);
            && |states| == |h.states| + |winners| && Successes(h, attempts, |attempts|) == |winners|
            && states[|states| - 1].title == LastTitle(h.states[|h.states| - 1].title, winners)
            && states[|states| - 1].content == LastContent(h.states[|h.states| - 1].content, winners)
  {
    if attempts != [] {
      var n := |attempts| - 1;
      LastSentStays(h, attempts[..n]);
      WinnerStep(Served(h, attempts[..n]), attempts[n], |h.states|, h.states[|h.states| - 1], Winners(|h.states|, attempts[..n]));
    }
    assert Successes(h, attempts, |attempts|) == |Winners(|h.states|, attempts)| by {
      assert attempts[..|attempts|] == attempts;
      VersionCountsSuccesses(h, attempts, |attempts|);
    }
  }

  lemma WinnerStep(h: History, a: Attempt, v: nat, first: Snapshot, winners: seq<Attempt>)
    requires h.states != [] && |h.states| == v + |winners|
    requires h.states[|h.states| - 1] == Snapshot(LastTitle(first.title, winners), LastContent(first.content, winners))
    ensures var states := Attempted(h, a).states;
            var won := if a.ifVersion == v + |winners| then winners + [a] else winners;
            && |states| == v + |won|
            && states[|states| - 1] == Snapshot(LastTitle(first.title, won), LastContent(first.content, won))
  {
    var won := winners + [a];
    assert won[..|won| - 1] == winners;
  }

  // ---------------------------------------------------------------------
  // The revisions table
  // ---------------------------------------------------------------------

  /** The revisions of one document, oldest first. */
  function RevisionsOf(table: seq<Revision>, doc: string): (r: seq<Revision>)
  {
    if table == [] then []
    else RevisionsOf(table[..|table| - 1], doc) + (if table[|table| - 1].doc == doc then [table[|table| - 1]] else [])
  }

  function Log(rows: seq<Revision>): (r: seq<Logged>)
  {
    seq(|rows|, i requires 0 <= i < |rows| => Logged(rows[i].version, Snapshot(rows[i].title, rows[i].content)))
  }

  /** How many revisions of `doc` have an id above `id`. */
  function Newer(table: seq<Revision>, doc: string, id: nat): nat {
    if table == [] then 0
    else
      var last := table[|table| - 1];
      Newer(table[..|table| - 1], doc, id) + (if last.doc == doc && last.id > id then 1 else 0)
  }

  /** `DELETE ... AND id NOT IN (SELECT id ... ORDER BY id DESC LIMIT keep)` over the first `n` rows. */
  function PruneUpTo(table: seq<Revision>, doc: string, keep: nat, n: nat): (r: seq<Revision>)
    requires n <= |table|
  {
    if n == 0 then []
    else
      var row := table[n - 1];
      var before := PruneUpTo(table, doc, keep, n - 1);
      if row.doc == doc && Newer(table, doc, row.id) >= keep then before else before + [row]
  }

  ghost predicate Increasing(table: seq<Revision>) {
    forall i, j :: 0 <= i < j < |table| ==> table[i].id < table[j].id
  }

  lemma {:induction false} NewerCounts(table: seq<Revision>, doc: string, n: nat, id: nat)
    requires Increasing(table) && n <= |table|
    requires forall i :: 0 <= i < |table| ==> (table[i].id > id <==> i >= n)
    ensures Newer(table, doc, id) == |RevisionsOf(table, doc)| - |RevisionsOf(table[..n], doc)|
  {
    if n < |table| {
      var m := |table| - 1;
      NewerCounts(table[..m], doc, n, id);
      assert table[..m][..n] == table[..n];
    } else {
      assert table[..n] == table;
      NoneNewer(table, doc, id);
    }
  }

  lemma NewerOfRow(table: seq<Revision>, doc: string, n: nat)
    requires Increasing(table) && 0 < n <= |table| && table[n - 1].doc == doc
    ensures Newer(table, doc, table[n - 1].id) == |RevisionsOf(table, doc)| - (|RevisionsOf(table[..n - 1], doc)| + 1)
  {
    forall i | 0 <= i < |table| ensures table[i].id > table[n - 1].id <==> i >= n {
      if i < n - 1 { assert table[i].id < table[n - 1].id; }
      if i > n - 1 { assert table[n - 1].id < table[i].id; }
    }
    NewerCounts(table, doc, n, table[n - 1].id);
    assert table[..n] == table[..n - 1] + [table[n - 1]];
    RevisionsOfAppend(table[..n - 1], table[n - 1], doc);
  }

  lemma {:induction false} NoneNewer(table: seq<Revision>, doc: string, id: nat)
    requires forall i :: 0 <= i < |table| ==> table[i].id <= id
    ensures Newer(table, doc, id) == 0
  {
    if table != [] { NoneNewer(table[..|table| - 1], doc, id); }
  }

  function DropFirst<T>(s: seq<T>, k: int): (r: seq<T>) {
    if k <= 0 then s else if k >= |s| then [] else s[k..]
  }

  lemma DropFirstOfAppend<T>(s: seq<T>, x: T, k: int)
    ensures DropFirst(s + [x], k) == if k > |s| then [] else DropFirst(s, k) + [x]
    ensures k >= |s| ==> DropFirst(s, k) == if k <= 0 then s else []
  {
  }

  lemma {:induction false} PruneIsSubsequence(table: seq<Revision>, doc: string, keep: nat, n: nat)
    requires Increasing(table) && n <= |table|
    ensures Increasing(PruneUpTo(table, doc, keep, n))
    ensures forall r :: r in PruneUpTo(table, doc, keep, n) ==> r in table[..n]
  {
    if n > 0 {
      PruneIsSubsequence(table, doc, keep, n - 1);
      assert table[..n] == table[..n - 1] + [table[n - 1]];
      var before := PruneUpTo(table, doc, keep, n - 1);
      forall i | 0 <= i < |before| ensures before[i].id < table[n - 1].id { assert before[i] in table[..n - 1]; }
    }
  }

  lemma RevisionsOfAppend(table: seq<Revision>, row: Revision, doc: string)
    ensures RevisionsOf(table + [row], doc) == RevisionsOf(table, doc) + (if row.doc == doc then [row] else [])
  {
    var t := table + [row];
    assert t[..|t| - 1] == table && t[|t| - 1] == row;
  }

  /** Pruning leaves every other document's revisions alone. */
  lemma {:induction false} PruneSparesOthers(table: seq<Revision>, doc: string, keep: nat, n: nat, other: string)
    requires n <= |table| && other != doc
    ensures RevisionsOf(PruneUpTo(table, doc, keep, n), other) == RevisionsOf(table[..n], other)
  {
    if n > 0 {
      PruneSparesOthers(table, doc, keep, n - 1, other);
      assert table[..n] == table[..n - 1] + [table[n - 1]];
      RevisionsOfAppend(table[..n - 1], table[n - 1], other);
      RevisionsOfAppend(PruneUpTo(table, doc, keep, n - 1), table[n - 1], other);
    }
  }

  /** Pruning leaves the last `keep` revisions of its own document. */
  lemma {:induction false} PruneKeepsLast(table: seq<Revision>, doc: string, keep: nat, n: nat)
    requires Increasing(table) && n <= |table|
    ensures RevisionsOf(PruneUpTo(table, doc, keep, n), doc)
            == DropFirst(RevisionsOf(table[..n], doc), |RevisionsOf(table, doc)| - keep)
  {
    if n > 0 {
      PruneKeepsLast(table, doc, keep, n - 1);
      PruneStep(table, doc, keep, n);
    }
  }

  lemma PruneStep(table: seq<Revision>, doc: string, keep: nat, n: nat)
    requires Increasing(table) && 0 < n <= |table|
    requires RevisionsOf(PruneUpTo(table, doc, keep, n - 1), doc)
             == DropFirst(RevisionsOf(table[..n - 1], doc), |RevisionsOf(table, doc)| - keep)
    ensures RevisionsOf(PruneUpTo(table, doc, keep, n), doc)
            == DropFirst(RevisionsOf(table[..n], doc), |RevisionsOf(table, doc)| - keep)
  {
    var row, before := table[n - 1], PruneUpTo(table, doc, keep, n - 1);
    var seen, k := RevisionsOf(table[..n - 1], doc), |RevisionsOf(table, doc)| - keep;
    assert RevisionsOf(table[..n], doc) == seen + (if row.doc == doc then [row] else []) by { SeenStep(table, doc, n); }
    assert PruneUpTo(table, doc, keep, n) == if row.doc == doc && k > |seen| then before else before + [row] by {
      DropTest(table, doc, keep, n);
    }
    KeepOrDrop(seen, before, row, doc, k);
  }

  /** The scan drops a row exactly when it is among the first `k` of its document. */
  lemma DropTest(table: seq<Revision>, doc: string, keep: nat, n: nat)
    requires Increasing(table) && 0 < n <= |table|
    ensures var k := |RevisionsOf(table, doc)| - keep;
            var before := PruneUpTo(table, doc, keep, n - 1);
            PruneUpTo(table, doc, keep, n)
            == if table[n - 1].doc == doc && k > |RevisionsOf(table[..n - 1], doc)| then before else before + [table[n - 1]]
  {
    if table[n - 1].doc == doc {
      NewerOfRow(table, doc, n);
    }
  }

  lemma SeenStep(table: seq<Revision>, doc: string, n: nat)
    requires 0 < n <= |table|
    ensures RevisionsOf(table[..n], doc)
            == RevisionsOf(table[..n - 1], doc) + (if table[n - 1].doc == doc then [table[n - 1]] else [])
  {
    assert table[..n] == table[..n - 1] + [table[n - 1]];
    RevisionsOfAppend(table[..n - 1], table[n - 1], doc);
  }

  /** One row of the scan: dropped exactly when more than the first `k` of its document are not yet passed. */
  lemma KeepOrDrop(seen: seq<Revision>, kept: seq<Revision>, row: Revision, doc: string, k: int)
    requires RevisionsOf(kept, doc) == DropFirst(seen, k)
    ensures RevisionsOf(if row.doc == doc && k > |seen| then kept else kept + [row], doc)
            == DropFirst(seen + (if row.doc == doc then [row] else []), k)
  {
    RevisionsOfAppend(kept, row, doc);
    if row.doc == doc {
      DropFirstOfAppend(seen, row, k);
    } else {
      assert seen + [] == seen;
    }
  }

  lemma {:induction false} NotPruned(table: seq<Revision>, doc: string, n: nat, i: nat)
    requires n <= |table| && i < |PruneUpTo(table, doc, 0, n)|
    ensures PruneUpTo(table, doc, 0, n)[i].doc != doc
  {
    if i < |PruneUpTo(table, doc, 0, n - 1)| { NotPruned(table, doc, n - 1, i); }
  }

  lemma {:induction false} NoRevisions(table: seq<Revision>, doc: string)
    requires forall i :: 0 <= i < |table| ==> table[i].doc != doc
    ensures RevisionsOf(table, doc) == []
  {
    if table != [] { NoRevisions(table[..|table| - 1], doc); }
  }

  // ---------------------------------------------------------------------
  // From ledger to table
  // ---------------------------------------------------------------------

  function Newest<T>(s: seq<T>): (r: seq<T>) {
    LastN(s, MAX_REVISIONS_PER_DOC)
  }

  lemma LedgerGrows(h: History, s: Snapshot)
    requires h.states != []
    ensures Ledger(h.(states := h.states + [s])) == Ledger(h) + [Logged(|h.states|, h.states[|h.states| - 1])]
  {
  }

  lemma NewestAppend<T>(s: seq<T>, x: T)
    ensures Newest(Newest(s) + [x]) == Newest(s + [x])
  {
  }

  /** Snapshot, append, prune: the stored log stays the newest part of the ledger. */
  lemma AppendAndPrune(table: seq<Revision>, row: Revision, ledger: seq<Logged>)
    requires Increasing(table + [row]) && Log(RevisionsOf(table, row.doc)) == Newest(ledger)
    ensures Log(RevisionsOf(PruneUpTo(table + [row], row.doc, MAX_REVISIONS_PER_DOC, |table| + 1), row.doc))
            == Newest(ledger + [Logged(row.version, Snapshot(row.title, row.content))])
  {
    var grown := table + [row];
    PruneKeepsLast(grown, row.doc, MAX_REVISIONS_PER_DOC, |grown|);
    assert grown[..|grown|] == grown;
    RevisionsOfAppend(table, row, row.doc);
    var entry := Logged(row.version, Snapshot(row.title, row.content));
    LogAppend(RevisionsOf(table, row.doc), row);
    NewestAppend(ledger, entry);
    LogOfLast(RevisionsOf(grown, row.doc));
  }

  lemma LogAppend(rows: seq<Revision>, row: Revision)
    ensures Log(rows + [row]) == Log(rows) + [Logged(row.version, Snapshot(row.title, row.content))]
  {
  }

  lemma LogOfLast(rows: seq<Revision>)
    ensures Log(DropFirst(rows, |rows| - MAX_REVISIONS_PER_DOC)) == Newest(Log(rows))
  {
  }

  /** A published document stores its last min(50, version - 1) superseded states, in order, each as it was. */
  lemma StoredRevisions(h: History)
    requires h.seed.None? && h.states != []
    ensures var kept := if |h.states| - 1 < MAX_REVISIONS_PER_DOC then |h.states| - 1 else MAX_REVISIONS_PER_DOC;
            && |Newest(Ledger(h))| == kept
            && forall i :: 0 <= i < kept ==>
                 Newest(Ledger(h))[i] == Logged(|h.states| - kept + i, h.states[|h.states| - kept + i - 1])
  {
  }

  /** A fork stores one more: its seed, which carries version 1 next to the superseded version 1. */
  lemma StoredRevisionsOfFork(h: History)
    requires h.seed.Some? && h.states != []
    ensures |h.states| <= MAX_REVISIONS_PER_DOC ==>
              && |Newest(Ledger(h))| == |h.states| && Newest(Ledger(h))[0] == Logged(1, h.seed.value)
              && Newest(Ledger(h))[1..] == Newest(Ledger(h.(seed := None)))
    ensures |h.states| > MAX_REVISIONS_PER_DOC ==> Newest(Ledger(h)) == Newest(Ledger(h.(seed := None)))
  {
  }

  /** Row ids increase, stay below the next one, and every row belongs to a known document. */
  ghost predicate TableOk(table: seq<Revision>, nextId: nat, docs: set<string>) {
    Increasing(table) && forall r :: r in table ==> r.id < nextId && r.doc in docs
  }

  lemma TableOkAppend(table: seq<Revision>, row: Revision, docs: set<string>)
    requires TableOk(table, row.id, docs)
    ensures TableOk(table + [row], row.id + 1, docs + {row.doc})
  {
  }

  function Inserted(table: seq<Revision>, row: Revision): seq<Revision> {
    PruneUpTo(table + [row], row.doc, MAX_REVISIONS_PER_DOC, |table| + 1)
  }

  lemma InsertedOk(table: seq<Revision>, row: Revision, docs: set<string>)
    requires TableOk(table, row.id, docs) && row.doc in docs
    ensures Increasing(table + [row])
    ensures TableOk(Inserted(table, row), row.id + 1, docs)
  {
    var grown := table + [row];
    PruneIsSubsequence(grown, row.doc, MAX_REVISIONS_PER_DOC, |grown|);
    assert grown[..|grown|] == grown;
    forall i | 0 <= i < |Inserted(table, row)|
      ensures Inserted(table, row)[i].id < row.id + 1 && Inserted(table, row)[i].doc in docs
    {
      assert Inserted(table, row)[i] in grown;
    }
  }

  lemma InsertedSparesOthers(table: seq<Revision>, row: Revision, d: string)
    requires d != row.doc
    ensures RevisionsOf(Inserted(table, row), d) == RevisionsOf(table, d)
  {
    var grown := table + [row];
    assert grown[..|grown|] == grown;
    PruneSparesOthers(grown, row.doc, MAX_REVISIONS_PER_DOC, |grown|, d);
    RevisionsOfAppend(table, row, d);
  }

  function Cascaded(table: seq<Revision>, doc: string): seq<Revision> {
    PruneUpTo(table, doc, 0, |table|)
  }

  lemma CascadedOk(table: seq<Revision>, doc: string, nextId: nat, docs: set<string>)
    requires TableOk(table, nextId, docs)
    ensures TableOk(Cascaded(table, doc), nextId, docs - {doc})
    ensures RevisionsOf(Cascaded(table, doc), doc) == []
    ensures forall d :: d != doc ==> RevisionsOf(Cascaded(table, doc), d) == RevisionsOf(table, d)
  {
    assert table[..|table|] == table;
    PruneIsSubsequence(table, doc, 0, |table|);
    PruneKeepsLast(table, doc, 0, |table|);
    forall i | 0 <= i < |Cascaded(table, doc)|
      ensures Cascaded(table, doc)[i].id < nextId && Cascaded(table, doc)[i].doc in docs - {doc}
    {
      NotPruned(table, doc, |table|, i);
      assert Cascaded(table, doc)[i] in table;
    }
    forall d | d != doc ensures RevisionsOf(Cascaded(table, doc), d) == RevisionsOf(table, d) {
      PruneSparesOthers(table, doc, 0, |table|, d);
    }
  }

  /** The stored row and revisions of one document agree with its history. */
  ghost predicate Agrees(doc: Document, revisions: seq<Revision>, h: History) {
    && h.states != [] && doc.version == |h.states|
    && TextOf(doc) == h.states[|h.states| - 1]
    && Log(revisions) == Newest(Ledger(h))
  }

  lemma UpdateAgrees(doc: Document, table: seq<Revision>, h: History, row: Revision, a: Attempt)
    requires Agrees(doc, RevisionsOf(table, row.doc), h) && Succeeds(h, a)
    requires Increasing(table + [row])
    requires row.version == doc.version && row.title == doc.title && row.content == doc.content
    ensures var s := Merged(TextOf(doc), a);
            Agrees(doc.(title := s.title, content := s.content, version := doc.version + 1),
                   RevisionsOf(Inserted(table, row), row.doc), Attempted(h, a))
  {
    LedgerGrows(h, Merged(TextOf(doc), a));
    AppendAndPrune(table, row, Ledger(h));
  }

  /** What `Agrees` looks at does not include the owner or the fork link. */
  lemma AgreesOnText(doc: Document, other: Document, revisions: seq<Revision>, h: History)
    requires Agrees(doc, revisions, h)
    requires other.title == doc.title && other.content == doc.content && other.version == doc.version
    ensures Agrees(other, revisions, h)
  {
  }

  // ---------------------------------------------------------------------
  // Whole tables
  // ---------------------------------------------------------------------

  datatype Tables = Tables(documents: map<string, Document>, revisions: seq<Revision>, nextId: nat)

  type Histories = map<string, History>

  ghost predicate DocOk(t: Tables, hs: Histories, d: string) {
    d in t.documents && d in hs && Agrees(t.documents[d], RevisionsOf(t.revisions, d), hs[d])
  }

  ghost predicate TablesOk(t: Tables, hs: Histories) {
    && t.documents.Keys == hs.Keys
    && TableOk(t.revisions, t.nextId, t.documents.Keys)
    && forall d {:trigger DocOk(t, hs, d)} :: d in t.documents ==> DocOk(t, hs, d)
  }

  ghost predicate Untouched(t: Tables, hs: Histories, t': Tables, hs': Histories, d: string)
    requires d in t.documents && d in hs
  {
    && d in t'.documents && t'.documents[d] == t.documents[d]
    && d in hs' && hs'[d] == hs[d]
    && RevisionsOf(t'.revisions, d) == RevisionsOf(t.revisions, d)
  }

  lemma UntouchedOk(t: Tables, hs: Histories, t': Tables, hs': Histories, d: string)
    requires TablesOk(t, hs) && d in t.documents && Untouched(t, hs, t', hs', d)
    ensures DocOk(t', hs', d)
  {
    assert DocOk(t, hs, d);
  }

  /** A change confined to one document keeps the tables in agreement with the histories. */
  lemma OneDocumentChanged(t: Tables, hs: Histories, t': Tables, hs': Histories, id: string)
    requires TablesOk(t, hs)
    requires t'.documents.Keys == t.documents.Keys + {id} && hs'.Keys == hs.Keys + {id}
    requires TableOk(t'.revisions, t'.nextId, t'.documents.Keys) && DocOk(t', hs', id)
    requires forall d {:trigger Untouched(t, hs, t', hs', d)} :: d in t.documents && d != id ==> Untouched(t, hs, t', hs', d)
    ensures TablesOk(t', hs')
  {
    forall d | d in t'.documents && d != id ensures DocOk(t', hs', d) {
      UntouchedOk(t, hs, t', hs', d);
    }
  }

  /** The row a successful update leaves: merged text, next version, same owner and fork link. */
  function Refreshed(doc: Document, a: Attempt): Document {
    var s := Merged(TextOf(doc), a);
    doc.(title := s.title, content := s.content, version := doc.version + 1)
  }

  /** The statements of a successful update. */
  function Committed(t: Tables, row: Revision, doc: Document): Tables {
    Tables(t.documents[row.doc := doc], Inserted(t.revisions, row), t.nextId + 1)
  }

  lemma CommitOk(t: Tables, hs: Histories, row: Revision, a: Attempt)
    requires TablesOk(t, hs) && row.doc in t.documents && Succeeds(hs[row.doc], a)
    requires var doc := t.documents[row.doc]; row == Revision(t.nextId, row.doc, doc.version, doc.title, doc.content)
    ensures TablesOk(Committed(t, row, Refreshed(t.documents[row.doc], a)), hs[row.doc := Attempted(hs[row.doc], a)])
  {
    var doc, h := t.documents[row.doc], hs[row.doc];
    assert DocOk(t, hs, row.doc);
    InsertedOk(t.revisions, row, t.documents.Keys);
    UpdateAgrees(doc, t.revisions, h, row, a);
    var t' := Committed(t, row, Refreshed(doc, a));
    var hs' := hs[row.doc := Attempted(h, a)];
    forall d | d in t.documents && d != row.doc ensures Untouched(t, hs, t', hs', d) {
      InsertedSparesOthers(t.revisions, row, d);
    }
    OneDocumentChanged(t, hs, t', hs', row.doc);
  }

  /** A fork starts with one revision: what it was copied from. */
  function Seeded(table: seq<Revision>, nextId: nat, id: string, seed: Option<Snapshot>): seq<Revision> {
    if seed.None? then table else table + [Revision(nextId, id, 1, seed.value.title, seed.value.content)]
  }

  function NextId(nextId: nat, seed: Option<Snapshot>): nat {
    if seed.None? then nextId else nextId + 1
  }

  /** A new document, with its seed revision when it is a fork. */
  function Created(t: Tables, id: string, doc: Document, seed: Option<Snapshot>): Tables {
    Tables(t.documents[id := doc], Seeded(t.revisions, t.nextId, id, seed), NextId(t.nextId, seed))
  }

  lemma SeededTableOk(table: seq<Revision>, nextId: nat, id: string, seed: Option<Snapshot>, docs: set<string>)
    requires TableOk(table, nextId, docs)
    ensures TableOk(Seeded(table, nextId, id, seed), NextId(nextId, seed), docs + {id})
  {
    if seed.Some? { TableOkAppend(table, Revision(nextId, id, 1, seed.value.title, seed.value.content), docs); }
  }

  lemma SeededLog(table: seq<Revision>, nextId: nat, id: string, seed: Option<Snapshot>)
    requires RevisionsOf(table, id) == []
    ensures Log(RevisionsOf(Seeded(table, nextId, id, seed), id)) == if seed.None? then [] else [Logged(1, seed.value)]
  {
    if seed.Some? {
      var row := Revision(nextId, id, 1, seed.value.title, seed.value.content);
      RevisionsOfAppend(table, row, id);
      LogAppend([], row);
      assert [] + [row] == [row];
    }
  }

  lemma SeededSparesOthers(table: seq<Revision>, nextId: nat, id: string, seed: Option<Snapshot>, d: string)
    requires d != id
    ensures RevisionsOf(Seeded(table, nextId, id, seed), d) == RevisionsOf(table, d)
  {
    if seed.Some? { RevisionsOfAppend(table, Revision(nextId, id, 1, seed.value.title, seed.value.content), d); }
  }

  lemma CreatedAgrees(doc: Document, revisions: seq<Revision>, seed: Option<Snapshot>)
    requires doc.version == 1 && Log(revisions) == if seed.None? then [] else [Logged(1, seed.value)]
    ensures Agrees(doc, revisions, History(seed, [TextOf(doc)]))
  {
    assert Ledger(History(seed, [TextOf(doc)])) == if seed.None? then [] else [Logged(1, seed.value)];
  }

  lemma CreatedDocOk(t: Tables, hs: Histories, id: string, doc: Document, seed: Option<Snapshot>)
    requires RevisionsOf(t.revisions, id) == [] && doc.version == 1
    ensures DocOk(Created(t, id, doc, seed), hs[id := History(seed, [TextOf(doc)])], id)
  {
    SeededLog(t.revisions, t.nextId, id, seed);
    CreatedAgrees(doc, RevisionsOf(Seeded(t.revisions, t.nextId, id, seed), id), seed);
  }

  lemma NoneYet(t: Tables, id: string)
    requires TableOk(t.revisions, t.nextId, t.documents.Keys) && id !in t.documents
    ensures RevisionsOf(t.revisions, id) == []
  {
    NoRevisions(t.revisions, id);
  }

  lemma CreatedSparesOthers(t: Tables, hs: Histories, id: string, doc: Document, seed: Option<Snapshot>)
    requires t.documents.Keys == hs.Keys && id !in t.documents
    ensures var t', hs' := Created(t, id, doc, seed), hs[id := History(seed, [TextOf(doc)])];
            forall d {:trigger Untouched(t, hs, t', hs', d)} :: d in t.documents && d != id ==> Untouched(t, hs, t', hs', d)
  {
    var t', hs' := Created(t, id, doc, seed), hs[id := History(seed, [TextOf(doc)])];
    forall d | d in t.documents && d != id ensures Untouched(t, hs, t', hs', d) {
      SeededSparesOthers(t.revisions, t.nextId, id, seed, d);
    }
  }

  lemma CreateOk(t: Tables, hs: Histories, id: string, doc: Document, seed: Option<Snapshot>)
    requires TablesOk(t, hs) && id !in t.documents && doc.version == 1
    ensures TablesOk(Created(t, id, doc, seed), hs[id := History(seed, [TextOf(doc)])])
  {
    var t', hs' := Created(t, id, doc, seed), hs[id := History(seed, [TextOf(doc)])];
    assert t'.documents.Keys == t.documents.Keys + {id};
    assert TableOk(t'.revisions, t'.nextId, t'.documents.Keys) by {
      SeededTableOk(t.revisions, t.nextId, id, seed, t.documents.Keys);
    }
    assert DocOk(t', hs', id) by {
      NoneYet(t, id);
      CreatedDocOk(t, hs, id, doc, seed);
    }
    CreatedSparesOthers(t, hs, id, doc, seed);
    OneDocumentChanged(t, hs, t', hs', id);
  }

  /** The bare `UPDATE documents SET title` after a fork: no new version, no revision. */
  function Renamed(t: Tables, id: string, title: string): Tables
    requires id in t.documents
  {
    t.(documents := t.documents[id := t.documents[id].(title := title)])
  }

  /** It rewrites the text of the current version. */
  function Retitled(h: History, title: string): History {
    if h.states == [] then h
    else h.(states := h.states[..|h.states| - 1] + [h.states[|h.states| - 1].(title := title)])
  }

  lemma RetitledAtOnce(seed: Option<Snapshot>, s: Snapshot, title: string)
    ensures Retitled(History(seed, [s]), title) == History(seed, [s.(title := title)])
  {
  }

  lemma RetitledLedger(h: History, title: string)
    ensures Ledger(Retitled(h, title)) == Ledger(h)
  {
  }

  lemma RetitleAgrees(doc: Document, revisions: seq<Revision>, h: History, title: string)
    requires Agrees(doc, revisions, h)
    ensures Agrees(doc.(title := title), revisions, Retitled(h, title))
  {
    RetitledLedger(h, title);
  }

  lemma RetitleOk(t: Tables, hs: Histories, id: string, title: string)
    requires TablesOk(t, hs) && id in t.documents
    ensures id in hs && TablesOk(Renamed(t, id, title), hs[id := Retitled(hs[id], title)])
  {
    assert DocOk(t, hs, id);
    var t', hs' := Renamed(t, id, title), hs[id := Retitled(hs[id], title)];
    RetitleAgrees(t.documents[id], RevisionsOf(t.revisions, id), hs[id], title);
    assert DocOk(t', hs', id);
    forall d | d in t.documents && d != id ensures Untouched(t, hs, t', hs', d) {}
    assert t'.documents.Keys == t.documents.Keys + {id};
    OneDocumentChanged(t, hs, t', hs', id);
  }

  lemma {:induction false} SameSuccesses(g: History, h: History, attempts: seq<Attempt>)
    requires |g.states| == |h.states|
    ensures |Served(g, attempts).states| == |Served(h, attempts).states|
  {
    if attempts != [] { SameSuccesses(g, h, attempts[..|attempts| - 1]); }
  }

  /**
   A fork is retitled in a separate statement. With any updates in between, the outcome is that of a fork
   with its title from the start exactly when none of them succeeded: otherwise version 1 keeps the
   source's title on record and the last update loses its own.
   */
  lemma LateRetitleIff(seed: Snapshot, attempts: seq<Attempt>, title: string)
    requires title != seed.title
    ensures var copy, forked := History(Some(seed), [seed]), History(Some(seed), [Snapshot(title, seed.content)]);
            Retitled(Served(copy, attempts), title) == Served(forked, attempts)
            <==> Successes(copy, attempts, |attempts|) == 0
  {
    var copy, forked := History(Some(seed), [seed]), History(Some(seed), [Snapshot(title, seed.content)]);
    assert attempts[..|attempts|] == attempts;
    VersionCountsSuccesses(copy, attempts, |attempts|);
    SameSuccesses(copy, forked, attempts);
    var late, early := Served(copy, attempts), Served(forked, attempts);
    assert late.states[0] == late.states[..1][0] == seed;
    assert early.states[0] == early.states[..1][0] == Snapshot(title, seed.content);
    if |late.states| > 1 {
      assert Retitled(late, title).states[0] == seed;
    } else {
      assert late.states == [seed] && early.states == [Snapshot(title, seed.content)];
    }
  }

  /** The stored version decides success exactly as the history does. */
  lemma VersionIsCurrent(t: Tables, hs: Histories, d: string)
    requires TablesOk(t, hs) && d in t.documents
    ensures d in hs && t.documents[d].version == |hs[d].states| >= 1
    ensures TextOf(t.documents[d]) == hs[d].states[|hs[d].states| - 1]
  {
    assert DocOk(t, hs, d);
  }

  /**
   What a published document shows of its history: the version counts its states, the text is the latest,
   and the revisions are exactly its last min(50, version - 1) superseded states, in order.
   */
  ghost predicate Shows(doc: Document, rows: seq<Revision>, states: seq<Snapshot>) {
    && states != [] && doc.version == |states| && TextOf(doc) == states[|states| - 1]
    && |rows| == (if |states| - 1 < 50 then |states| - 1 else 50)
    && forall i :: 0 <= i < |rows| ==>
         && rows[i].version == |states| - |rows| + i
         && Snapshot(rows[i].title, rows[i].content) == states[rows[i].version - 1]
  }

  /** The stored rows of a document without a seed, one by one. */
  lemma StoredRows(doc: Document, rows: seq<Revision>, h: History)
    requires Agrees(doc, rows, h) && h.seed.None?
    ensures Shows(doc, rows, h.states)
  {
    StoredRevisions(h);
    forall i | 0 <= i < |rows|
      ensures rows[i].version == |h.states| - |rows| + i
      ensures Snapshot(rows[i].title, rows[i].content) == h.states[rows[i].version - 1]
    {
      assert Log(rows)[i] == Newest(Ledger(h))[i];
    }
  }

  /** A document published with text `s` and then sent any `attempts`: its version is one plus the successful ones. */
  lemma {:induction false} PublishedDocument(t: Tables, hs: Histories, d: string, s: Snapshot, attempts: seq<Attempt>)
    requires TablesOk(t, hs) && d in t.documents && d in hs && hs[d] == Served(History(None, [s]), attempts)
    ensures t.documents[d].version == 1 + Successes(History(None, [s]), attempts, |attempts|)
    ensures Shows(t.documents[d], RevisionsOf(t.revisions, d), Served(History(None, [s]), attempts).states)
  {
    VersionIsCurrent(t, hs, d);
    assert |hs[d].states| == 1 + Successes(History(None, [s]), attempts, |attempts|) by {
      assert attempts[..|attempts|] == attempts;
      VersionCountsSuccesses(History(None, [s]), attempts, |attempts|);
    }
    StoredRows(t.documents[d], RevisionsOf(t.revisions, d), hs[d]) by { assert DocOk(t, hs, d); }
  }

  function Removed(t: Tables, id: string): Tables {
    t.(documents := Deleted(t.documents, id), revisions := Cascaded(t.revisions, id))
  }

  lemma RemoveOk(t: Tables, hs: Histories, id: string)
    requires TablesOk(t, hs)
    ensures TablesOk(Removed(t, id), hs - {id})
    ensures RevisionsOf(Removed(t, id).revisions, id) == []
  {
    var t' := Removed(t, id);
    CascadedOk(t.revisions, id, t.nextId, t.documents.Keys);
    forall d | d in t'.documents ensures DocOk(t', hs - {id}, d) {
      assert DocOk(t, hs, d);
      AgreesOnText(t.documents[d], t'.documents[d], RevisionsOf(t.revisions, d), hs[d]);
    }
  }

  function Deleted(documents: map<string, Document>, gone: string): (r: map<string, Document>)
    ensures r.Keys == documents.Keys - {gone}
  {
    map d | d in documents && d != gone :: Unlinked(documents[d], gone)
  }

  /** `ON DELETE SET NULL`. */
  function Unlinked(doc: Document, gone: string): Document {
    doc.(forkedFrom := if doc.forkedFrom == Some(gone) then None else doc.forkedFrom)
  }
}
