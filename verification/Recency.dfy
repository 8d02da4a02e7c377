/**
 Key order of the two LRU-bounded `OrderedDict`s (the resolved-token cache and the
 token-bucket limiter): least recently touched first, most recently touched last.
 */
module Recency {
  type Key = string

  /** No key occurs twice. */
  ghost predicate Distinct(order: seq<Key>) {
    forall i, j :: 0 <= i < j < |order| ==> order[i] != order[j]
  }

  /** `order` without the keys in `gone`; the others keep their order. */
  function Drop(order: seq<Key>, gone: set<Key>): (r: seq<Key>)
    ensures forall x :: x in r <==> x in order && x !in gone
    ensures Distinct(order) ==> Distinct(r)
    ensures |r| <= |order|
  {
    if order == [] then []
    else if order[0] in gone then Drop(order[1..], gone)
    else [order[0]] + Drop(order[1..], gone)
  }

  /** Move `k` to the end, appending it when it is new. */
  function Touch(order: seq<Key>, k: Key): (r: seq<Key>)
    ensures forall x :: x in r <==> x in order || x == k
    ensures Distinct(order) ==> Distinct(r)
  {
    Drop(order, {k}) + [k]
  }

  /** Evict from the front until at most `max` keys are left. */
  function Trim(order: seq<Key>, max: nat): (r: seq<Key>)
    ensures |r| <= max
    ensures forall x :: x in r ==> x in order
    ensures Distinct(order) ==> Distinct(r)
  {
    if |order| <= max then order else order[|order| - max..]
  }

  /** The keys touched more recently than `k`. */
  function Newer(order: seq<Key>, k: Key): (r: seq<Key>)
    ensures |r| <= |order|
    ensures forall x :: x in r ==> x in order
    ensures Distinct(order) ==> Distinct(r) && k !in r
  {
    if order == [] then []
    else if order[0] == k then order[1..]
    else Newer(order[1..], k)
  }

  /** The part of a map whose keys are still in `order`. */
  function Within<V>(m: map<Key, V>, order: seq<Key>): (r: map<Key, V>) {
    map x | x in m && x in order :: m[x]
  }

  /** Set of the keys in a sequence. */
  function Keys(s: seq<Key>): (r: set<Key>)
    ensures forall x :: x in r <==> x in s
  {
    set x | x in s
  }

  // ---------------------------------------------------------------------
  // Algebra of the three edits
  // ---------------------------------------------------------------------

  lemma {:induction false} DropNothing(order: seq<Key>, gone: set<Key>)
    requires forall x :: x in gone ==> x !in order
    ensures Drop(order, gone) == order
  {
    if order != [] {
      DropNothing(order[1..], gone);
      assert order == [order[0]] + order[1..];
    }
  }

  lemma {:induction false} DropConcat(a: seq<Key>, b: seq<Key>, gone: set<Key>)
    ensures Drop(a + b, gone) == Drop(a, gone) + Drop(b, gone)
  {
    if a == [] {
      assert a + b == b;
    } else {
      assert (a + b)[1..] == a[1..] + b;
      DropConcat(a[1..], b, gone);
    }
  }

  lemma {:induction false} DropTwice(order: seq<Key>, g: set<Key>, h: set<Key>)
    ensures Drop(Drop(order, g), h) == Drop(order, g + h)
  {
    if order != [] {
      DropTwice(order[1..], g, h);
      if order[0] !in g {
        assert Drop(order, g)[1..] == Drop(order[1..], g);
      }
    }
  }

  /** Popping the oldest key from order and map keeps them in step. */
  lemma WithinTail<V>(m: map<Key, V>, order: seq<Key>)
    requires Distinct(order) && order != []
    ensures Within(m, order) - {order[0]} == Within(m, order[1..])
  {
    assert forall x :: x in order[1..] <==> x in order && x != order[0];
  }

  lemma WithinMinus<V>(m: map<Key, V>, order: seq<Key>, k: Key, v: V)
    ensures Within(m - {k}, order) == Within(m[k := v], order) - {k}
  {
  }

  lemma WithinSet<V>(m: map<Key, V>, kept: map<Key, V>, order: seq<Key>, k: Key, v: V)
    requires k in order && Within(m - {k}, order) == kept - {k}
    ensures Within(m[k := v], order) == kept[k := v]
  {
    assert kept[k := v] == (kept - {k})[k := v];
  }

  lemma SameKeys<V>(order: seq<Key>, m: map<Key, V>, k: Key)
    requires Keys(order) == m.Keys
    ensures k in order <==> k in m
  {
    assert k in order <==> k in Keys(order);
  }

  /** A known key fits wherever its order did. */
  lemma KnownTouch(order: seq<Key>, k: Key, max: nat)
    requires Distinct(order) && k in order && |order| <= max
    ensures Trim(Touch(order, k), max) == Drop(order, {k}) + [k]
    ensures k in Trim(Touch(order, k), max)
  {
    DropShrinks(order, k);
    assert (Drop(order, {k}) + [k])[|Drop(order, {k})|] == k;
  }

  lemma TouchedStays(order: seq<Key>, k: Key, max: nat)
    requires max >= 1
    ensures k in Trim(Touch(order, k), max)
  {
    var next := Trim(Touch(order, k), max);
    assert next[|next| - 1] == k;
  }

  /** A new key is appended, and is not the one a bound of at least one drops. */
  lemma NewTouch(order: seq<Key>, k: Key, max: nat)
    requires Distinct(order) && k !in order && max >= 1
    ensures Touch(order, k) == order + [k] && Distinct(order + [k])
    ensures k in Trim(Touch(order, k), max)
  {
    DropNothing(order, {k});
    TouchedStays(order, k, max);
  }

  lemma WithinTouched<V>(m: map<Key, V>, order: seq<Key>, k: Key)
    requires Keys(order) == m.Keys && k in order
    ensures Within(m - {k}, Drop(order, {k}) + [k]) == m - {k}
  {
    forall x | x in m && x != k ensures x in Drop(order, {k}) + [k] { SameKeys(order, m, x); }
  }

  lemma {:induction false} DistinctLength(order: seq<Key>)
    requires Distinct(order)
    ensures |Keys(order)| == |order|
  {
    if order != [] {
      var last := |order| - 1;
      DistinctLength(order[..last]);
      assert Keys(order) == Keys(order[..last]) + {order[last]};
    }
  }

  /** Position of `k`: everything older, then `k`, then everything newer. */
  lemma {:induction false} SplitAt(order: seq<Key>, k: Key) returns (older: seq<Key>)
    requires k in order
    ensures order == older + [k] + Newer(order, k)
    ensures k !in older
  {
    if order[0] == k {
      older := [];
      assert order == [k] + order[1..];
    } else {
      var rest := SplitAt(order[1..], k);
      older := [order[0]] + rest;
      assert order == [order[0]] + order[1..];
    }
  }

  lemma {:induction false} NewerOfSplit(older: seq<Key>, k: Key, newer: seq<Key>)
    requires k !in older
    ensures Newer(older + [k] + newer, k) == newer
  {
    var order := older + [k] + newer;
    if older == [] {
      assert order == [k] + newer;
    } else {
      assert order[1..] == older[1..] + [k] + newer;
      NewerOfSplit(older[1..], k, newer);
    }
  }

  lemma {:induction false} NewerAfterDrop(order: seq<Key>, gone: set<Key>, k: Key)
    requires k in order && k !in gone
    ensures Newer(Drop(order, gone), k) == Drop(Newer(order, k), gone)
  {
    var older := SplitAt(order, k);
    DropConcat(older + [k], Newer(order, k), gone);
    DropConcat(older, [k], gone);
    assert Drop([k], gone) == [k];
    NewerOfSplit(Drop(older, gone), k, Drop(Newer(order, k), gone));
  }

  lemma {:induction false} NewerAfterTouch(order: seq<Key>, x: Key, k: Key)
    requires k in order && x != k
    ensures Newer(Touch(order, x), k) == Touch(Newer(order, k), x)
  {
    NewerAfterDrop(order, {x}, k);
    var d := Drop(order, {x});
    var older := SplitAt(d, k);
    assert d + [x] == older + [k] + (Newer(d, k) + [x]);
    NewerOfSplit(older, k, Newer(d, k) + [x]);
  }

  /** Trimming keeps `k` exactly when fewer than `max` keys are newer. */
  lemma {:induction false} TrimKeeps(order: seq<Key>, max: nat, k: Key)
    requires Distinct(order) && k in order
    ensures k in Trim(order, max) <==> |Newer(order, k)| < max
    ensures k in Trim(order, max) ==> Newer(Trim(order, max), k) == Newer(order, k)
  {
    var older := SplitAt(order, k);
    var newer := Newer(order, k);
    if |order| > max {
      var cut := |order| - max;
      if cut <= |older| {
        assert order[cut..] == older[cut..] + [k] + newer;
        assert order[cut..][|older| - cut] == k;
        NewerOfSplit(older[cut..], k, newer);
      } else {
        assert order[|older|] == k;
      }
    }
  }

  lemma NewerAfterOwnTouch(order: seq<Key>, k: Key)
    ensures Newer(Touch(order, k), k) == []
  {
    assert Touch(order, k) == Drop(order, {k}) + [k] + [];
    NewerOfSplit(Drop(order, {k}), k, []);
  }

  lemma TouchAhead(order: seq<Key>, x: Key, k: Key)
    requires k in order && x != k
    ensures Keys(Newer(Touch(order, x), k)) == Keys(Newer(order, k)) + {x}
  {
    NewerAfterTouch(order, x, k);
  }

  lemma DropAhead(order: seq<Key>, x: Key, k: Key)
    requires k in order && x != k
    ensures Keys(Newer(Drop(order, {x}), k)) == Keys(Newer(order, k)) - {x}
  {
    NewerAfterDrop(order, {x}, k);
  }

  /** A bounded touch of another key puts it ahead of `k`, which stays while fewer than `max` are ahead. */
  lemma BoundedTouch(order: seq<Key>, x: Key, k: Key, max: nat)
    requires Distinct(order) && k in order && x != k
    ensures var next := Trim(Touch(order, x), max);
            && (k in next <==> |Keys(Newer(order, k)) + {x}| < max)
            && (k in next ==> Keys(Newer(next, k)) == Keys(Newer(order, k)) + {x})
  {
    var moved := Touch(order, x);
    assert Keys(Newer(moved, k)) == Keys(Newer(order, k)) + {x} by { TouchAhead(order, x, k); }
    assert Distinct(moved);
    assert |Newer(moved, k)| == |Keys(Newer(moved, k))| by { DistinctLength(Newer(moved, k)); }
    TrimKeeps(moved, max, k);
  }

  /** The keys ahead fill the bound exactly when a new key meets a full order and `k` is its oldest. */
  lemma OldestOfFull(order: seq<Key>, x: Key, k: Key, max: nat)
    requires Distinct(order) && k in order && x != k && |order| <= max
    ensures |Keys(Newer(order, k)) + {x}| >= max <==> x !in order && |order| == max && order[0] == k
  {
    var older := SplitAt(order, k);
    var newer := Newer(order, k);
    DistinctLength(newer);
    if x in newer {
      assert Keys(newer) + {x} == Keys(newer);
    } else {
      assert |Keys(newer) + {x}| == |newer| + 1;
      assert x in order <==> x in older;
    }
  }

  // ---------------------------------------------------------------------
  // Whole runs of touches
  // ---------------------------------------------------------------------

  /** What a bounded map holds after the touches of `history`, oldest first. */
  function Bounded(history: seq<Key>, max: nat): (r: seq<Key>) {
    if history == [] then []
    else Trim(Touch(Bounded(history[..|history| - 1], max), history[|history| - 1]), max)
  }

  /** The same with no bound: every key ever touched, by last touch. */
  function Unbounded(history: seq<Key>): (r: seq<Key>)
    ensures Distinct(r)
    ensures forall x :: x in r <==> x in history
  {
    if history == [] then []
    else
      var last := |history| - 1;
      assert history == history[..last] + [history[last]];
      Touch(Unbounded(history[..last]), history[last])
  }

  /** The keys touched in `history` after its last touch of `k`. */
  function Since(history: seq<Key>, k: Key): (r: set<Key>)
    requires k in history
  {
    var last := |history| - 1;
    if history[last] == k then {}
    else
      assert history == history[..last] + [history[last]];
      Since(history[..last], k) + {history[last]}
  }

  lemma TrimTail(a: seq<Key>, b: seq<Key>, max: nat)
    requires |b| >= max
    ensures Trim(a + b, max) == Trim(b, max)
  {
    assert (a + b)[|a| + |b| - max..] == b[|b| - max..];
  }

  lemma {:induction false} TrimTouchTrim(order: seq<Key>, k: Key, max: nat)
    requires Distinct(order)
    ensures Trim(Touch(Trim(order, max), k), max) == Trim(Touch(order, k), max)
  {
    if |order| > max {
      var cut := |order| - max;
      var front, back := order[..cut], order[cut..];
      assert order == front + back;
      DropConcat(front, back, {k});
      assert Touch(order, k) == Drop(front, {k}) + Touch(back, k);
      if k in back {
        DropShrinks(back, k);
      } else {
        DropNothing(back, {k});
      }
      TrimTail(Drop(front, {k}), Touch(back, k), max);
    }
  }

  lemma {:induction false} DropShrinks(order: seq<Key>, k: Key)
    requires Distinct(order) && k in order
    ensures |Drop(order, {k})| == |order| - 1
  {
    if order[0] == k {
      DropNothing(order[1..], {k});
    } else {
      DropShrinks(order[1..], k);
    }
  }

  /** The bounded map holds exactly the `max` most recently touched keys. */
  lemma {:induction false} BoundedIsMostRecent(history: seq<Key>, max: nat)
    ensures Bounded(history, max) == Trim(Unbounded(history), max)
  {
    if history != [] {
      var last := |history| - 1;
      BoundedIsMostRecent(history[..last], max);
      TrimTouchTrim(Unbounded(history[..last]), history[last], max);
    }
  }

  lemma {:induction false} NewerIsSince(history: seq<Key>, k: Key)
    requires k in history
    ensures Keys(Newer(Unbounded(history), k)) == Since(history, k)
  {
    var last := |history| - 1;
    var before := Unbounded(history[..last]);
    if history[last] == k {
      var d := Drop(before, {k});
      assert Unbounded(history) == d + [k] + [];
      NewerOfSplit(d, k, []);
    } else {
      assert history == history[..last] + [history[last]];
      NewerIsSince(history[..last], k);
      NewerAfterTouch(before, history[last], k);
    }
  }

  /**
   A key survives exactly when fewer than `max` distinct other keys were touched
   since its own last touch.
   */
  lemma {:induction false} SurvivesIff(history: seq<Key>, max: nat, k: Key)
    requires k in history
    ensures k in Bounded(history, max) <==> |Since(history, k)| < max
  {
    BoundedIsMostRecent(history, max);
    var all := Unbounded(history);
    TrimKeeps(all, max, k);
    NewerIsSince(history, k);
    DistinctLength(Newer(all, k));
  }
}
