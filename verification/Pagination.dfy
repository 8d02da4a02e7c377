/**
 Keyset pagination: every paginator orders by (sort key DESC, id DESC), over-fetches by one row and
 hands out a cursor naming the last row of the page. Tables may change between pages.
 */
module Pagination {
  import opened Base

  /** What the queries order by: a timestamp column, then the id. */
  datatype Key = Key(sort: string, id: string)

  /** `matching` is the truth of the paginator's own WHERE clause for the row. */
  datatype Row = Row(sort: string, matching: bool)

  type Table = map<string, Row>

  // ---------------------------------------------------------------------
  // The order
  // ---------------------------------------------------------------------

  /** Text comparison, character by character; a proper prefix is smaller. */
  predicate TextLess(a: string, b: string) {
    if b == "" then false
    else if a == "" then true
    else a[0] < b[0] || (a[0] == b[0] && TextLess(a[1..], b[1..]))
  }

  /** The row-value comparison `(sort, id) < (?, ?)`. */
  predicate Less(a: Key, b: Key) {
    TextLess(a.sort, b.sort) || (a.sort == b.sort && TextLess(a.id, b.id))
  }

  lemma {:induction false} TextIrreflexive(a: string)
    ensures !TextLess(a, a)
  {
    if a != "" { TextIrreflexive(a[1..]); }
  }

  lemma {:induction false} TextTransitive(a: string, b: string, c: string)
    requires TextLess(a, b) && TextLess(b, c)
    ensures TextLess(a, c)
  {
    if a != "" && a[0] == b[0] == c[0] { TextTransitive(a[1..], b[1..], c[1..]); }
  }

  lemma {:induction false} TextTotal(a: string, b: string)
    ensures a == b || TextLess(a, b) || TextLess(b, a)
  {
    if a != "" && b != "" && a[0] == b[0] {
      TextTotal(a[1..], b[1..]);
      assert a == [a[0]] + a[1..] && b == [b[0]] + b[1..];
    }
  }

  /** The keyset order is a strict total order. */
  lemma LessIsStrictTotalOrder(a: Key, b: Key, c: Key)
    ensures !Less(a, a)
    ensures Less(a, b) && Less(b, c) ==> Less(a, c)
    ensures a == b || Less(a, b) || Less(b, a)
  {
    TextIrreflexive(a.sort);
    TextIrreflexive(a.id);
    TextTotal(a.sort, b.sort);
    TextTotal(a.id, b.id);
    if TextLess(a.sort, b.sort) && TextLess(b.sort, c.sort) { TextTransitive(a.sort, b.sort, c.sort); }
    if TextLess(a.id, b.id) && TextLess(b.id, c.id) { TextTransitive(a.id, b.id, c.id); }
  }

  /** At the first place where they differ `a` has the smaller character, or `a` ends there. */
  ghost predicate Smaller(a: string, b: string) {
    exists i :: 0 <= i < |b| && i <= |a| && a[..i] == b[..i] && (i == |a| || a[i] < b[i])
  }

  lemma SmallerTail(a: string, b: string)
    requires a != "" && b != "" && a[0] == b[0]
    ensures Smaller(a, b) <==> Smaller(a[1..], b[1..])
  {
    if Smaller(a, b) { SmallerShorter(a, b); }
    if Smaller(a[1..], b[1..]) { SmallerLonger(a, b); }
  }

  lemma SmallerShorter(a: string, b: string)
    requires a != "" && b != "" && a[0] == b[0] && Smaller(a, b)
    ensures Smaller(a[1..], b[1..])
  {
    var i :| 0 <= i < |b| && i <= |a| && a[..i] == b[..i] && (i == |a| || a[i] < b[i]);
    assert i >= 1;
    assert a[1..][..i - 1] == a[..i][1..] && b[1..][..i - 1] == b[..i][1..];
  }

  lemma SmallerLonger(a: string, b: string)
    requires a != "" && b != "" && a[0] == b[0] && Smaller(a[1..], b[1..])
    ensures Smaller(a, b)
  {
    var i :| 0 <= i < |b[1..]| && i <= |a[1..]| && a[1..][..i] == b[1..][..i] && (i == |a[1..]| || a[1..][i] < b[1..][i]);
    assert a[..i + 1] == [a[0]] + a[1..][..i] && b[..i + 1] == [b[0]] + b[1..][..i];
  }

  lemma {:induction false} TextLessIff(a: string, b: string)
    ensures TextLess(a, b) <==> Smaller(a, b)
  {
    if a == "" {
      assert b != "" ==> a[..0] == b[..0];
    } else if b != "" && a[0] == b[0] {
      TextLessIff(a[1..], b[1..]);
      SmallerTail(a, b);
    } else if b != "" {
      assert a[..0] == b[..0];
      assert forall i :: 0 < i <= |a| && i <= |b| ==> a[..i][0] != b[..i][0];
    }
  }

  /** By sort key, then by id, each compared at the first difference. */
  lemma LessIff(a: Key, b: Key)
    ensures Less(a, b) <==> Smaller(a.sort, b.sort) || (a.sort == b.sort && Smaller(a.id, b.id))
  {
    TextLessIff(a.sort, b.sort);
    TextLessIff(a.id, b.id);
  }

  /** Newest first: sort keys never rise along the list, and equal ones are in falling id order. */
  ghost predicate NewestFirst(s: seq<Key>) {
    forall i, j :: 0 <= i < j < |s| ==>
      Smaller(s[j].sort, s[i].sort) || (s[j].sort == s[i].sort && Smaller(s[j].id, s[i].id))
  }

  lemma DescendingIsNewestFirst(s: seq<Key>)
    ensures Descending(s) <==> NewestFirst(s)
  {
    forall i, j | 0 <= i < j < |s|
      ensures Less(s[j], s[i])
              <==> Smaller(s[j].sort, s[i].sort) || (s[j].sort == s[i].sort && Smaller(s[j].id, s[i].id))
    {
      LessIff(s[j], s[i]);
    }
  }

  ghost predicate Descending(s: seq<Key>) {
    forall i, j :: 0 <= i < j < |s| ==> Less(s[j], s[i])
  }

  lemma DescendingIsDistinct(s: seq<Key>)
    requires Descending(s)
    ensures forall i, j :: 0 <= i < j < |s| ==> s[i] != s[j]
    ensures |set k | k in s| == |s|
  {
    forall i, j | 0 <= i < j < |s| ensures s[i] != s[j] {
      LessIsStrictTotalOrder(s[i], s[j], s[j]);
    }
    SizeOfDistinct(s);
  }

  lemma {:induction false} SizeOfDistinct(s: seq<Key>)
    requires forall i, j :: 0 <= i < j < |s| ==> s[i] != s[j]
    ensures |set k | k in s| == |s|
  {
    if s != [] {
      var n := |s| - 1;
      SizeOfDistinct(s[..n]);
      assert s == s[..n] + [s[n]];
      assert (set k | k in s) == (set k | k in s[..n]) + {s[n]};
    }
  }

  /** A set of keys has only one descending listing. */
  lemma {:induction false} DescendingIsUnique(a: seq<Key>, b: seq<Key>)
    requires Descending(a) && Descending(b)
    requires forall k :: k in a <==> k in b
    ensures a == b
  {
    DescendingIsDistinct(a);
    DescendingIsDistinct(b);
    assert (set k | k in a) == (set k | k in b);
    if a != [] {
      assert a[0] in b;
      FirstIsGreatest(a, b[0]);
      FirstIsGreatest(b, a[0]);
      LessIsStrictTotalOrder(a[0], b[0], a[0]);
      forall k ensures k in a[1..] <==> k in b[1..] {
        TailMembers(a, k);
        TailMembers(b, k);
      }
      DescendingIsUnique(a[1..], b[1..]);
      assert a == [a[0]] + a[1..] && b == [b[0]] + b[1..];
    }
  }

  lemma TailMembers(s: seq<Key>, k: Key)
    requires s != [] && forall i, j :: 0 <= i < j < |s| ==> s[i] != s[j]
    ensures k in s[1..] <==> k in s && k != s[0]
  {
    assert s == [s[0]] + s[1..];
    forall i | 0 <= i < |s[1..]| ensures s[1..][i] != s[0] { assert s[1..][i] == s[i + 1]; }
  }

  lemma FirstIsGreatest(s: seq<Key>, k: Key)
    requires Descending(s) && k in s
    ensures k == s[0] || Less(k, s[0])
  {
    var i :| 0 <= i < |s| && s[i] == k;
    if i > 0 { assert Less(s[i], s[0]); }
  }

  // ---------------------------------------------------------------------
  // One page
  // ---------------------------------------------------------------------

  function Keys(table: Table): set<Key> {
    set id | id in table && table[id].matching :: Key(table[id].sort, id)
  }

  /** The matching rows below the cursor. */
  function Rows(table: Table, from: Option<Key>): set<Key> {
    set k | k in Keys(table) && (from.None? || Less(k, from.value))
  }

  lemma KeyInTable(table: Table, k: Key)
    ensures k in Keys(table) <==> k.id in table && table[k.id].matching && table[k.id].sort == k.sort
  {
  }

  /**
   `page` lists the greatest rows below `from`, in order: all of them when there is no next cursor,
   and exactly `n` with at least one more left behind otherwise.
   */
  ghost predicate IsPage(table: Table, from: Option<Key>, n: nat, page: seq<Key>, next: Option<Key>) {
    && Descending(page)
    && (forall k :: k in page ==> k in Rows(table, from))
    && (next.None? ==> |page| <= n && forall k :: k in Rows(table, from) ==> k in page)
    && (next.Some? ==>
          && 0 < |page| == n && next.value == page[n - 1]
          && (forall k :: k in Rows(table, from) ==> k in page || Less(k, next.value))
          && exists k :: k in Rows(table, from) && k !in page)
  }

  /** Cursors in and out of text: base64 over JSON in the program. */
  datatype Codec = Codec(enc: Key -> string, dec: string -> Option<Key>)

  ghost predicate Faithful(codec: Codec) {
    forall k: Key :: codec.enc(k) != "" && codec.dec(codec.enc(k)) == Some(k)
  }

  datatype Clause = Matches | Before(key: Key)

  predicate Meets(k: Key, where: seq<Clause>) {
    forall c :: c in where ==> c.Before? ==> Less(k, c.key)
  }

  ghost predicate Greatest(rows: set<Key>, k: Key) {
    k in rows && forall j :: j in rows ==> j == k || Less(j, k)
  }

  lemma {:induction false} GreatestExists(rows: set<Key>)
    requires rows != {}
    ensures exists k :: Greatest(rows, k)
    decreases |rows|
  {
    var k :| k in rows;
    var rest := rows - {k};
    if rest == {} {
      forall j | j in rows ensures j == k { assert j !in rest; }
      assert Greatest(rows, k);
    } else {
      GreatestExists(rest);
      var m :| Greatest(rest, m);
      LessIsStrictTotalOrder(m, k, m);
      if Less(k, m) {
        assert Greatest(rows, m);
      } else {
        forall j | j in rows ensures j == k || Less(j, k) { LessIsStrictTotalOrder(j, m, k); }
        assert Greatest(rows, k);
      }
    }
  }

  /** `SELECT ... WHERE <clauses> ORDER BY sort DESC, id DESC LIMIT n`. */
  method Select(table: Table, where: seq<Clause>, n: nat) returns (rows: seq<Key>)
    ensures Descending(rows) && |rows| <= n
    ensures forall k :: k in rows ==> k in Keys(table) && Meets(k, where)
    ensures |rows| < n ==> forall k :: k in Keys(table) && Meets(k, where) ==> k in rows
    ensures forall k, i :: k in Keys(table) && Meets(k, where) && 0 <= i < |rows| && k !in rows ==> Less(k, rows[i])
  {
    var rest := set k | k in Keys(table) && Meets(k, where);
    rows := [];
    while |rows| < n && rest != {}
      invariant Descending(rows) && |rows| <= n
      invariant forall k :: k in Keys(table) && Meets(k, where) <==> k in rows || k in rest
      invariant forall k, i :: k in rest && 0 <= i < |rows| ==> Less(k, rows[i])
      decreases n - |rows|
    {
      GreatestExists(rest);
      var m :| m in rest && forall j :: j in rest ==> j == m || Less(j, m);
      rows := rows + [m];
      rest := rest - {m};
    }
  }

  datatype Error = MalformedCursor

  datatype Listing = Listing(items: seq<Key>, nextCursor: Option<string>)

  /** `if cursor:` treats a missing and an empty cursor alike. */
  predicate FromStart(cursor: Option<string>) {
    cursor.None? || cursor.value == ""
  }

  function Clamped(limit: int, cap: nat): (n: int)
    requires cap >= 1
    ensures 1 <= n <= cap && (1 <= limit <= cap ==> n == limit)
    ensures (limit < 1 ==> n == 1) && (limit > cap ==> n == cap)
  {
    var low := if limit < 1 then 1 else limit;
    if low > cap then cap else low
  }

  /** What a call with this cursor may answer. */
  ghost predicate Answers(codec: Codec, table: Table, limit: int, cursor: Option<string>, cap: nat, l: Listing)
    requires cap >= 1
  {
    exists next: Option<Key> ::
      && IsPage(table, if cursor.None? || cursor.value == "" then None else codec.dec(cursor.value),
                Clamped(limit, cap), l.items, next)
      && l.nextCursor == (if next.None? then None else Some(codec.enc(next.value)))
  }

  /** A paginator call returns the page its cursor asks for, whatever the table holds by then. */
  method ListPaginated(codec: Codec, table: Table, limit: int, cursor: Option<string>, cap: nat)
    returns (r: Result<Listing, Error>)
    requires cap >= 1
    ensures r.Err? <==> cursor.Some? && cursor.value != "" && codec.dec(cursor.value).None?
    ensures r.Ok? ==> Answers(codec, table, limit, cursor, cap, r.value) && NewestFirst(r.value.items)
  {
    var n := Clamped(limit, cap);
    var where := [Matches];
    var from: Option<Key> := None;
    if !FromStart(cursor) {
      from := codec.dec(cursor.value);
      if from.None? { return Err(MalformedCursor); }
      where := where + [Before(from.value)];
    }
    assert forall k :: k in Rows(table, from) <==> k in Keys(table) && Meets(k, where);
    var rows := Select(table, where, n + 1);
    var hasMore := |rows| > n;
    var page := if hasMore then rows[..n] else rows;
    var nextCursor: Option<string> := None;
    ghost var next: Option<Key> := None;
    if hasMore {
      var last := page[n - 1];
      next, nextCursor := Some(last), Some(codec.enc(last));
      OverFetched(rows, n);
    }
    assert IsPage(table, from, n, page, next);
    DescendingIsNewestFirst(page);
    r := Ok(Listing(page, nextCursor));
    assert r.value.nextCursor == if next.None? then None else Some(codec.enc(next.value));
  }

  /** Dropping the over-fetched row leaves it behind, below the rest. */
  lemma OverFetched(rows: seq<Key>, n: nat)
    requires Descending(rows) && |rows| == n + 1 && n >= 1
    ensures Descending(rows[..n]) && rows[n] !in rows[..n] && Less(rows[n], rows[n - 1])
    ensures forall k :: k in rows ==> k in rows[..n] || k == rows[n]
  {
    DescendingIsDistinct(rows);
  }

  // ---------------------------------------------------------------------
  // Walks
  // ---------------------------------------------------------------------

  /** One call of a walk: the table as it was then, the page size used and what came back. */
  datatype Step = Step(table: Table, limit: nat, page: seq<Key>, next: Option<Key>)

  ghost predicate StepOk(w: seq<Step>, i: nat)
    requires i < |w|
  {
    && w[i].limit >= 1
    && (i > 0 ==> w[i - 1].next.Some?)
    && IsPage(w[i].table, if i == 0 then None else w[i - 1].next, w[i].limit, w[i].page, w[i].next)
  }

  /** Start without a cursor and follow each cursor to the next page; the table changes at will in between. */
  ghost predicate IsWalk(w: seq<Step>) {
    w != [] && forall i: nat {:trigger StepOk(w, i)} :: i < |w| ==> StepOk(w, i)
  }

  function Collected(w: seq<Step>): (r: seq<Key>) {
    if w == [] then [] else Collected(w[..|w| - 1]) + w[|w| - 1].page
  }

  predicate Finished(w: seq<Step>)
    requires w != []
  {
    w[|w| - 1].next.None?
  }

  lemma WalkPrefix(w: seq<Step>, n: nat)
    requires IsWalk(w) && 0 < n <= |w|
    ensures IsWalk(w[..n])
  {
    forall i: nat | i < n ensures StepOk(w[..n], i) { assert StepOk(w, i); }
  }

  lemma PageDescends(w: seq<Step>, i: nat)
    requires IsWalk(w) && i < |w|
    ensures Descending(w[i].page)
    ensures w[i].next.Some? ==> w[i].page != [] && w[i].page[|w[i].page| - 1] == w[i].next.value
    ensures i > 0 ==> w[i - 1].next.Some? && forall k :: k in w[i].page ==> Less(k, w[i - 1].next.value)
  {
    assert StepOk(w, i);
  }

  /** No key is ever returned twice: a walk descends strictly, whatever happens to the table. */
  lemma {:induction false} WalkDescends(w: seq<Step>)
    requires IsWalk(w)
    ensures Descending(Collected(w))
    ensures !Finished(w) ==> Collected(w) != [] && Collected(w)[|Collected(w)| - 1] == w[|w| - 1].next.value
  {
    var n := |w| - 1;
    PageDescends(w, n);
    if n == 0 {
      assert Collected(w) == w[0].page;
    } else {
      WalkPrefix(w, n);
      WalkDescends(w[..n]);
      Concatenated(Collected(w[..n]), w[n].page);
    }
  }

  lemma Concatenated(a: seq<Key>, b: seq<Key>)
    requires Descending(a) && Descending(b) && a != []
    requires forall k :: k in b ==> Less(k, a[|a| - 1])
    ensures Descending(a + b)
  {
    forall i, j | 0 <= i < j < |a + b| ensures Less((a + b)[j], (a + b)[i]) {
      if i < |a| <= j {
        assert b[j - |a|] in b;
        LessIsStrictTotalOrder(b[j - |a|], a[|a| - 1], a[i]);
      }
    }
  }

  /** Everything returned was a matching row of the table its page was read from. */
  lemma {:induction false} ReturnedWasThere(w: seq<Step>, k: Key)
    requires IsWalk(w) && k in Collected(w)
    ensures exists i :: 0 <= i < |w| && k in w[i].page && k in Keys(w[i].table)
  {
    var n := |w| - 1;
    assert StepOk(w, n);
    if k !in w[n].page {
      WalkPrefix(w, n);
      ReturnedWasThere(w[..n], k);
      var i :| 0 <= i < n && k in w[..n][i].page && k in Keys(w[..n][i].table);
      assert k in w[i].page && k in Keys(w[i].table);
    }
  }

  ghost predicate AlwaysThere(w: seq<Step>, k: Key) {
    forall s :: s in w ==> k in Keys(s.table)
  }

  /** A row that stays has been returned as soon as the cursor is at or below it. */
  lemma {:induction false} NothingSkipped(w: seq<Step>, k: Key)
    requires IsWalk(w) && AlwaysThere(w, k)
    requires !Finished(w) ==> !Less(k, w[|w| - 1].next.value)
    ensures k in Collected(w)
  {
    var n := |w| - 1;
    assert StepOk(w, n) && w[n] in w;
    if n > 0 && !Less(k, w[n - 1].next.value) {
      WalkPrefix(w, n);
      forall s | s in w[..n] ensures k in Keys(s.table) { assert s in w; }
      NothingSkipped(w[..n], k);
    } else {
      assert k in Rows(w[n].table, if n == 0 then None else w[n - 1].next);
    }
  }

  /** A finished walk returns every row that stayed, exactly once. */
  lemma EveryStayingRowOnce(w: seq<Step>, k: Key)
    requires IsWalk(w) && Finished(w) && AlwaysThere(w, k)
    ensures exists i :: 0 <= i < |Collected(w)| && Collected(w)[i] == k
                        && forall j :: 0 <= j < |Collected(w)| && Collected(w)[j] == k ==> j == i
  {
    NothingSkipped(w, k);
    WalkDescends(w);
    DescendingIsDistinct(Collected(w));
    var i :| 0 <= i < |Collected(w)| && Collected(w)[i] == k;
  }

  // ---------------------------------------------------------------------
  // A table that does not change
  // ---------------------------------------------------------------------

  ghost predicate Static(w: seq<Step>, table: Table, n: nat) {
    forall s :: s in w ==> s.table == table && s.limit == n
  }

  lemma CollectedAreRows(w: seq<Step>, table: Table, n: nat, k: Key)
    requires IsWalk(w) && Static(w, table, n) && k in Collected(w)
    ensures k in Keys(table)
  {
    ReturnedWasThere(w, k);
    var i :| 0 <= i < |w| && k in w[i].page && k in Keys(w[i].table);
    assert w[i] in w;
  }

  /** The pages of a static table concatenate to its full descending listing. */
  lemma StaticWalkIsFullListing(w: seq<Step>, table: Table, n: nat, listing: seq<Key>)
    requires IsWalk(w) && Finished(w) && Static(w, table, n)
    requires Descending(listing) && forall k :: k in listing <==> k in Keys(table)
    ensures Collected(w) == listing
  {
    WalkDescends(w);
    forall k ensures k in Collected(w) <==> k in listing {
      if k in Collected(w) { CollectedAreRows(w, table, n, k); }
      if k in Keys(table) { NothingSkipped(w, k); }
    }
    DescendingIsUnique(Collected(w), listing);
  }

  lemma {:induction false} FullPages(w: seq<Step>, table: Table, n: nat)
    requires IsWalk(w) && Static(w, table, n)
    ensures !Finished(w) ==> |Collected(w)| == n * |w|
    ensures |Collected(w)| <= n * |w|
  {
    var m := |w| - 1;
    StaticPage(w, table, n);
    if m == 0 {
      assert Collected(w) == w[0].page;
    } else {
      WalkPrefix(w, m);
      forall s | s in w[..m] ensures s.table == table && s.limit == n { assert s in w; }
      FullPages(w[..m], table, n);
      assert StepOk(w, m);
      OneMore(n, m);
    }
  }

  lemma StaticPage(w: seq<Step>, table: Table, n: nat)
    requires IsWalk(w) && Static(w, table, n)
    ensures |w[|w| - 1].page| <= n && (!Finished(w) ==> |w[|w| - 1].page| == n)
  {
    assert StepOk(w, |w| - 1) && w[|w| - 1] in w;
  }

  lemma OneMore(n: nat, m: nat)
    ensures n * (m + 1) == n * m + n
  {
  }

  /** The walk ends exactly when its pages can hold the whole table: it never asks for an empty page. */
  lemma EndsWhenFull(w: seq<Step>, table: Table, n: nat)
    requires IsWalk(w) && Static(w, table, n)
    ensures Finished(w) <==> |Keys(table)| <= n * |w|
  {
    WalkDescends(w);
    FullPages(w, table, n);
    var got := set k | k in Collected(w);
    DescendingIsDistinct(Collected(w));
    forall k | k in got ensures k in Keys(table) { CollectedAreRows(w, table, n, k); }
    if Finished(w) {
      forall k | k in Keys(table) ensures k in got { NothingSkipped(w, k); }
      assert got == Keys(table);
    } else {
      LeftBehind(w, table, n);
    }
  }

  lemma LeftBehind(w: seq<Step>, table: Table, n: nat)
    requires IsWalk(w) && Static(w, table, n) && !Finished(w)
    ensures |Keys(table)| > |set k | k in Collected(w)|
  {
    var m := |w| - 1;
    assert StepOk(w, m) && w[m] in w;
    WalkDescends(w);
    var from: Option<Key> := if m == 0 then None else w[m - 1].next;
    var x :| x in Rows(table, from) && x !in w[m].page;
    assert Less(x, w[m].next.value);
    var all := Collected(w);
    if x in all {
      var i :| 0 <= i < |all| && all[i] == x;
      LessIsStrictTotalOrder(all[i], all[|all| - 1], all[i]);
    }
    var got := set k | k in all;
    forall k | k in got ensures k in Keys(table) { CollectedAreRows(w, table, n, k); }
    SmallerSet(got, Keys(table), x);
  }

  lemma SmallerSet(a: set<Key>, b: set<Key>, x: Key)
    requires a <= b && x in b && x !in a
    ensures |a| < |b|
  {
    assert a <= b - {x};
    SubsetSize(a, b - {x});
  }

  lemma {:induction false} SubsetSize(a: set<Key>, b: set<Key>)
    requires a <= b
    ensures |a| <= |b|
    decreases |a|
  {
    if a != {} {
      var x :| x in a;
      SubsetSize(a - {x}, b - {x});
    }
  }

  // ---------------------------------------------------------------------
  // Rows that move
  // ---------------------------------------------------------------------

  /** Timestamps only move forward, as when the sort column is an update or re-grant time. */
  ghost predicate SortsNeverFall(w: seq<Step>) {
    forall i, j, id :: 0 <= i < j < |w| && id in w[i].table && id in w[j].table ==>
      !TextLess(w[j].table[id].sort, w[i].table[id].sort)
  }

  /** Then no row, however often it is updated, appears twice in a walk. */
  lemma {:induction false} NoIdTwice(w: seq<Step>, p: nat, q: nat)
    requires IsWalk(w) && SortsNeverFall(w) && p < q < |Collected(w)|
    ensures Collected(w)[p].id != Collected(w)[q].id
  {
    var n := |w| - 1;
    var before, all := Collected(w[..n]), Collected(w);
    WalkDescends(w);
    assert Less(all[q], all[p]);
    if q < |before| {
      WalkPrefix(w, n);
      SortsNeverFallPrefix(w, n);
      NoIdTwice(w[..n], p, q);
    } else {
      assert all[q] == w[n].page[q - |before|];
      if p < |before| {
        WalkPrefix(w, n);
        ReturnedWasThere(w[..n], all[p]);
        var i :| 0 <= i < n && all[p] in w[..n][i].page && all[p] in Keys(w[..n][i].table);
        OtherRow(w, i, n, all[p], all[q]);
      } else {
        assert all[p] == w[n].page[p - |before|];
        OtherRow(w, n, n, all[p], all[q]);
      }
    }
  }

  lemma SortsNeverFallPrefix(w: seq<Step>, n: nat)
    requires SortsNeverFall(w) && n <= |w|
    ensures SortsNeverFall(w[..n])
  {
    forall i, j, id | 0 <= i < j < n && id in w[..n][i].table && id in w[..n][j].table
      ensures !TextLess(w[..n][j].table[id].sort, w[..n][i].table[id].sort)
    {
      assert w[..n][i] == w[i] && w[..n][j] == w[j];
    }
  }

  /** A lower key on the same or a later page belongs to another row. */
  lemma OtherRow(w: seq<Step>, i: nat, j: nat, a: Key, b: Key)
    requires IsWalk(w) && SortsNeverFall(w) && i <= j < |w|
    requires a in w[i].page && b in w[j].page && Less(b, a)
    ensures a.id != b.id
  {
    assert StepOk(w, i) && StepOk(w, j);
    assert a in Keys(w[i].table) && b in Keys(w[j].table);
    KeyInTable(w[i].table, a);
    KeyInTable(w[j].table, b);
    TextIrreflexive(a.id);
    TextIrreflexive(a.sort);
  }

  /**
   A row updated behind the cursor before it was reached is not returned at all: "b" moves from
   below the first page to above it between two pages.
   */
  lemma UpdatedRowIsSkipped() returns (w: seq<Step>)
    ensures IsWalk(w) && Finished(w) && SortsNeverFall(w)
    ensures forall s :: s in w ==> "b" in s.table && s.table["b"].matching
    ensures forall k :: k in Collected(w) ==> k.id != "b"
  {
    var first := map["a" := Row("2", true), "b" := Row("1", true)];
    var second := map["a" := Row("2", true), "b" := Row("3", true)];
    var a := Key("2", "a");
    w := [Step(first, 1, [a], Some(a)), Step(second, 1, [], None)];
    FirstPageHoldsA(first);
    SecondPageIsEmpty(second);
    assert StepOk(w, 0);
    assert StepOk(w, 1);
    assert IsWalk(w);
    TwoPages(w);
  }

  lemma FirstPageHoldsA(table: Table)
    requires table == map["a" := Row("2", true), "b" := Row("1", true)]
    ensures IsPage(table, None, 1, [Key("2", "a")], Some(Key("2", "a")))
  {
    var a, b := Key("2", "a"), Key("1", "b");
    KeyInTable(table, a);
    KeyInTable(table, b);
    assert Less(b, a);
    assert b in Rows(table, None) && b !in [a];
    forall k | k in Rows(table, None) ensures k == a || k == b { KeyInTable(table, k); }
  }

  lemma SecondPageIsEmpty(table: Table)
    requires table == map["a" := Row("2", true), "b" := Row("3", true)]
    ensures IsPage(table, Some(Key("2", "a")), 1, [], None)
  {
    var a, b := Key("2", "a"), Key("3", "b");
    assert !Less(a, a) && !Less(b, a);
    forall k | k in Keys(table) ensures !Less(k, a) {
      KeyInTable(table, k);
      assert k == a || k == b;
    }
  }

  lemma TwoPages(w: seq<Step>)
    requires |w| == 2
    ensures Collected(w) == w[0].page + w[1].page
  {
    assert w[..1][..0] == [];
    assert w[..1][0] == w[0];
    assert Collected(w[..1]) == w[0].page;
  }

  /** The row matches, under some key, whenever a page is read. */
  ghost predicate AlwaysMatching(w: seq<Step>, id: string) {
    forall s :: s in w ==> id in s.table && s.table[id].matching
  }

  function KeyAt(w: seq<Step>, i: nat, id: string): Key
    requires i < |w| && id in w[i].table
  {
    Key(w[i].table[id].sort, id)
  }

  /** Between page `i` and the next the row moved from below the cursor to at or above it. */
  ghost predicate Jumps(w: seq<Step>, i: nat, id: string) {
    && i + 1 < |w| && id in w[i].table && id in w[i + 1].table && w[i].next.Some?
    && Less(KeyAt(w, i, id), w[i].next.value) && !Less(KeyAt(w, i + 1, id), w[i].next.value)
  }

  /** Without a jump, a row that is not returned stays below the cursor up to every page. */
  lemma {:induction false} StaysAhead(w: seq<Step>, id: string, i: nat)
    requires IsWalk(w) && AlwaysMatching(w, id) && i < |w|
    requires forall k :: k in Collected(w) ==> k.id != id
    requires forall j: nat :: !Jumps(w, j, id)
    ensures id in w[i].table && KeyAt(w, i, id) in Rows(w[i].table, if i == 0 then None else w[i - 1].next)
  {
    assert w[i] in w;
    KeyInTable(w[i].table, KeyAt(w, i, id));
    if i > 0 {
      StaysAhead(w, id, i - 1);
      assert StepOk(w, i - 1) && StepOk(w, i);
      PageIsCollected(w, i - 1, KeyAt(w, i - 1, id));
      assert !Jumps(w, i - 1, id);
    }
  }

  lemma {:induction false} PageIsCollected(w: seq<Step>, i: nat, k: Key)
    requires i < |w|
    ensures k in w[i].page ==> k in Collected(w)
  {
    if i < |w| - 1 { PageIsCollected(w[..|w| - 1], i, k); }
  }

  /** Later cursors are lower. */
  lemma {:induction false} CursorsFall(w: seq<Step>, i: nat, j: nat)
    requires IsWalk(w) && i <= j < |w| && w[j].next.Some?
    ensures w[i].next.Some? && (w[j].next == w[i].next || Less(w[j].next.value, w[i].next.value))
  {
    if i < j {
      PageDescends(w, j);
      assert w[j].next.value in w[j].page;
      CursorsFall(w, i, j - 1);
      LessIsStrictTotalOrder(w[j].next.value, w[j - 1].next.value, w[i].next.value);
    }
  }

  /** A page lists nothing below its own cursor, and nothing at or above the one before. */
  lemma PageBetweenCursors(w: seq<Step>, i: nat, k: Key)
    requires IsWalk(w) && i < |w| && k in w[i].page
    ensures w[i].next.Some? ==> !Less(k, w[i].next.value)
    ensures i > 0 ==> w[i - 1].next.Some? && Less(k, w[i - 1].next.value)
  {
    PageDescends(w, i);
    if w[i].next.Some? {
      var page := w[i].page;
      var p :| 0 <= p < |page| && page[p] == k;
      if p < |page| - 1 { assert Less(page[|page| - 1], k); }
      LessIsStrictTotalOrder(k, page[|page| - 1], k);
    }
  }

  lemma KeysNeverFall(w: seq<Step>, id: string, i: nat, j: nat)
    requires AlwaysMatching(w, id) && SortsNeverFall(w) && i <= j < |w|
    ensures id in w[i].table && id in w[j].table && !Less(KeyAt(w, j, id), KeyAt(w, i, id))
  {
    assert w[i] in w && w[j] in w;
    TextIrreflexive(id);
    TextIrreflexive(w[i].table[id].sort);
  }

  /** A row that jumped the cursor at page `i` is on no page. */
  lemma JumpedIsOnNoPage(w: seq<Step>, id: string, i: nat, j: nat)
    requires IsWalk(w) && AlwaysMatching(w, id) && SortsNeverFall(w) && Jumps(w, i, id) && j < |w|
    ensures id in w[j].table && KeyAt(w, j, id) !in w[j].page
  {
    assert w[j] in w;
    var k := KeyAt(w, j, id);
    var cursor := w[i].next.value;
    if k in w[j].page {
      PageBetweenCursors(w, j, k);
      if j <= i {
        KeysNeverFall(w, id, j, i);
        CursorsFall(w, j, i);
        NotBetween(k, KeyAt(w, i, id), cursor, w[j].next.value);
      } else {
        KeysNeverFall(w, id, i + 1, j);
        CursorsFall(w, i, j - 1);
        NotBetween(KeyAt(w, i + 1, id), k, w[j - 1].next.value, cursor);
      }
    }
  }

  /** a <= b < c <= d gives a < d. */
  lemma NotBetween(a: Key, b: Key, c: Key, d: Key)
    requires !Less(b, a) && Less(b, c) && (c == d || Less(c, d))
    ensures Less(a, d)
  {
    LessIsStrictTotalOrder(a, b, c);
    LessIsStrictTotalOrder(a, c, d);
  }

  /**
   When timestamps only move forward, a finished walk misses a row that matched throughout if and only
   if, between two pages, the row was updated from below the cursor to at or above it.
   */
  lemma MissedIffJumped(w: seq<Step>, id: string)
    requires IsWalk(w) && Finished(w) && SortsNeverFall(w) && AlwaysMatching(w, id)
    ensures (forall k :: k in Collected(w) ==> k.id != id) <==> exists i: nat :: Jumps(w, i, id)
  {
    if exists i: nat :: Jumps(w, i, id) {
      var i: nat :| Jumps(w, i, id);
      forall k | k in Collected(w) ensures k.id != id {
        ReturnedWasThere(w, k);
        var j :| 0 <= j < |w| && k in w[j].page && k in Keys(w[j].table);
        JumpedIsOnNoPage(w, id, i, j);
        KeyInTable(w[j].table, k);
      }
    } else if forall k :: k in Collected(w) ==> k.id != id {
      MissedMeansJump(w, id);
    }
  }

  /** This half needs no assumption on timestamps. */
  lemma MissedMeansJump(w: seq<Step>, id: string)
    requires IsWalk(w) && Finished(w) && AlwaysMatching(w, id)
    requires forall k :: k in Collected(w) ==> k.id != id
    ensures exists i: nat :: Jumps(w, i, id)
  {
    if forall i: nat :: !Jumps(w, i, id) {
      var n := |w| - 1;
      StaysAhead(w, id, n);
      assert StepOk(w, n);
      PageIsCollected(w, n, KeyAt(w, n, id));
    }
  }

  // ---------------------------------------------------------------------
  // Walks as a client makes them
  // ---------------------------------------------------------------------

  /** A client's call: it sends back the text of the cursor it was given. */
  datatype Call = Call(table: Table, limit: int, cursor: Option<string>, listing: Listing)

  ghost predicate CallOk(codec: Codec, cap: nat, calls: seq<Call>, i: nat)
    requires cap >= 1 && i < |calls|
  {
    && Answers(codec, calls[i].table, calls[i].limit, calls[i].cursor, cap, calls[i].listing)
    && if i == 0 then FromStart(calls[0].cursor)
       else calls[i].cursor == calls[i - 1].listing.nextCursor && calls[i].cursor.Some?
  }

  ghost predicate IsClientWalk(codec: Codec, cap: nat, calls: seq<Call>)
    requires cap >= 1
  {
    calls != [] && forall i: nat {:trigger CallOk(codec, cap, calls, i)} :: i < |calls| ==> CallOk(codec, cap, calls, i)
  }

  function Decoded(codec: Codec, cap: nat, call: Call): Step
    requires cap >= 1
  {
    Step(call.table, Clamped(call.limit, cap), call.listing.items,
         if call.listing.nextCursor.None? then None else codec.dec(call.listing.nextCursor.value))
  }

  function Steps(codec: Codec, cap: nat, calls: seq<Call>): (w: seq<Step>)
    requires cap >= 1
  {
    seq(|calls|, i requires 0 <= i < |calls| => Decoded(codec, cap, calls[i]))
  }

  /** With a faithful cursor encoding, what clients do is a walk, so everything above holds of it. */
  lemma ClientWalksAreWalks(codec: Codec, cap: nat, calls: seq<Call>)
    requires cap >= 1 && Faithful(codec) && IsClientWalk(codec, cap, calls)
    ensures IsWalk(Steps(codec, cap, calls))
    ensures Finished(Steps(codec, cap, calls)) <==> calls[|calls| - 1].listing.nextCursor.None?
  {
    var w := Steps(codec, cap, calls);
    forall i: nat | i < |w| ensures StepOk(w, i) {
      CallIsStep(codec, cap, calls, i);
      if i > 0 { CallIsStep(codec, cap, calls, i - 1); }
    }
    CallIsStep(codec, cap, calls, |calls| - 1);
  }

  lemma CallIsStep(codec: Codec, cap: nat, calls: seq<Call>, i: nat)
    requires cap >= 1 && Faithful(codec) && IsClientWalk(codec, cap, calls) && i < |calls|
    ensures var s := Decoded(codec, cap, calls[i]);
            && s.limit >= 1
            && IsPage(s.table, if FromStart(calls[i].cursor) then None else codec.dec(calls[i].cursor.value),
                      s.limit, s.page, s.next)
            && (s.next.None? <==> calls[i].listing.nextCursor.None?)
            && (calls[i].listing.nextCursor.Some? ==> !FromStart(calls[i].listing.nextCursor))
    ensures if i == 0 then FromStart(calls[0].cursor)
            else calls[i].cursor == calls[i - 1].listing.nextCursor && calls[i].cursor.Some?
  {
    assert CallOk(codec, cap, calls, i);
    var c := calls[i];
    var next: Option<Key> :|
      && IsPage(c.table, if FromStart(c.cursor) then None else codec.dec(c.cursor.value), Clamped(c.limit, cap),
                c.listing.items, next)
      && c.listing.nextCursor == (if next.None? then None else Some(codec.enc(next.value)));
    assert next == Decoded(codec, cap, c).next;
  }
}
