/**
 * The shared caches of pending reported items. Each cache maps a story
 * context to its own deque of item handles, most recently opened first.
 * This module holds the deque operations the context setters use
 * (push, remove-first-match, peek), the merge of one cache into a single
 * sequence, and what that merged sequence contains whatever order the
 * map happens to be iterated in.
 */
module PendingCache {
  import opened Wrappers

  // ---------------------------------------------------------------------
  // One context's deque
  // ---------------------------------------------------------------------

  /** `peek()`: the front of the deque, empty when the deque is empty. */
  function Peek<T>(d: seq<T>): (r: Option<T>)
    ensures r.None? <==> d == []
    ensures r.Some? ==> r.value == d[0]
  {
    if d == [] then None else Some(d[0])
  }

  /**
   * `remove(o)`: takes out the first element equal to `x` and leaves the
   * deque as it was when no element is equal to `x`.
   */
  function RemoveFirst<T(==)>(d: seq<T>, x: T): (r: seq<T>)
    ensures x !in d ==> r == d
    ensures x in d ==> |r| == |d| - 1
    ensures multiset(r) == multiset(d) - multiset{x}
  {
    if d == [] then []
    else
      assert d == [d[0]] + d[1..];
      if d[0] == x then d[1..] else [d[0]] + RemoveFirst(d[1..], x)
  }

  /** An element before the first match stays at the front. */
  lemma RemoveFirstKeepsHead<T>(d: seq<T>, x: T)
    requires d != [] && d[0] != x
    ensures RemoveFirst(d, x) == [d[0]] + RemoveFirst(d[1..], x)
  {
  }

  /** Cutting out position `i` of `d` is keeping its head and cutting position `i - 1` of its tail. */
  lemma CutAtCons<T>(d: seq<T>, i: nat)
    requires 0 < i < |d|
    ensures d[..i] + d[i + 1..] == [d[0]] + (d[1..][..i - 1] + d[1..][i..])
  {
    assert [d[0]] + d[1..][..i - 1] == d[..i];
    assert d[1..][i..] == d[i + 1..];
  }

  /** The element removed is the first match: everything before it stays, and so does everything after it. */
  lemma {:induction false} RemoveFirstAt<T>(d: seq<T>, x: T, i: nat)
    requires i < |d| && d[i] == x
    requires forall j :: 0 <= j < i ==> d[j] != x
    ensures RemoveFirst(d, x) == d[..i] + d[i + 1..]
  {
    if i == 0 {
      assert d[..0] + d[1..] == d[1..];
    } else {
      RemoveFirstKeepsHead(d, x);
      RemoveFirstAt(d[1..], x, i - 1);
      CutAtCons(d, i);
    }
  }

  /** The entry a cache holds for `k`, or the empty deque `getEntryFrom` would insert. */
  function EntryOf<K, T>(m: map<K, seq<T>>, k: K): seq<T>
  {
    if k in m then m[k] else []
  }

  /**
   * What a slot setter does to its context's deque: a present argument is
   * pushed onto the front; an absent one (Java `null`) removes the first
   * occurrence of the slot's previous value, and nothing when the previous
   * value was absent too (the deque never holds `null`).
   */
  function Mirror<T(==)>(entry: seq<T>, previous: Option<T>, arg: Option<T>): seq<T>
  {
    match arg
    case Some(h) => [h] + entry
    case None => if previous.Some? then RemoveFirst(entry, previous.value) else entry
  }

  /** Writing a context's deque back replaces whatever `getEntryFrom` inserted for it. */
  lemma ReplaceEntry<K, T>(m: map<K, seq<T>>, k: K, inserted: seq<T>, d: seq<T>)
    ensures m[k := inserted][k := d] == m[k := d]
  {
  }

  /** A push followed by a clear of the value just pushed gives the deque back. */
  lemma MirrorClearUndoesPush<T>(entry: seq<T>, previous: Option<T>, h: T)
    ensures Mirror(Mirror(entry, previous, Some(h)), Some(h), None) == entry
  {
  }

  /** Clearing a slot whose value is absent or no longer in the deque leaves the deque as it was. */
  lemma {:induction false} MirrorClearOfAbsent<T>(entry: seq<T>, previous: Option<T>)
    requires previous.None? || previous.value !in entry
    ensures Mirror(entry, previous, None) == entry
  {
  }

  /** The handle a setter call adds to the cache's contents. */
  function Added<T>(arg: Option<T>): multiset<T>
  {
    if arg.Some? then multiset{arg.value} else multiset{}
  }

  /** The handle a setter call takes out of the cache's contents. */
  function Removed<T(==)>(entry: seq<T>, previous: Option<T>, arg: Option<T>): multiset<T>
  {
    if arg.None? && previous.Some? && previous.value in entry then multiset{previous.value} else multiset{}
  }

  /** Mirroring changes the deque's contents by exactly the added and removed handle. */
  lemma MirrorContents<T>(entry: seq<T>, previous: Option<T>, arg: Option<T>)
    ensures multiset(Mirror(entry, previous, arg)) + Removed(entry, previous, arg)
         == multiset(entry) + Added(arg)
  {
    if arg.None? && previous.Some? && previous.value in entry {
      assert previous.value in multiset(entry);
    }
  }

  // ---------------------------------------------------------------------
  // Nested steps
  // ---------------------------------------------------------------------

  /** The step deque after pushing each handle of `hs` in turn (composite, then composed steps). */
  function PushAll<T>(entry: seq<T>, hs: seq<T>): seq<T>
    decreases |hs|
  {
    if hs == [] then entry else PushAll([hs[0]] + entry, hs[1..])
  }

  /**
   * The step deque after `n` clears of a step slot that is re-read from
   * the front after every call, so each clear removes the slot's value
   * as it stands at the front.
   */
  function ClearSteps<T(==)>(entry: seq<T>, n: nat): seq<T>
  {
    if n == 0 then entry else ClearSteps(Mirror(entry, Peek(entry), None), n - 1)
  }

  lemma {:induction false} PushAllKeepsBase<T>(entry: seq<T>, hs: seq<T>)
    ensures |PushAll(entry, hs)| == |hs| + |entry|
    ensures PushAll(entry, hs)[|hs|..] == entry
    decreases |hs|
  {
    if hs != [] {
      PushAllKeepsBase([hs[0]] + entry, hs[1..]);
      var r := PushAll(entry, hs);
      assert r[|hs|..] == r[|hs| - 1..][1..];
    }
  }

  lemma {:induction false} ClearStepsDrops<T>(entry: seq<T>, n: nat)
    requires n <= |entry|
    ensures ClearSteps(entry, n) == entry[n..]
  {
    if n > 0 {
      assert Mirror(entry, Peek(entry), None) == entry[1..];
      ClearStepsDrops(entry[1..], n - 1);
      assert entry[1..][n - 1..] == entry[n..];
    }
  }

  /**
   * Balanced step bookkeeping: after pushing any number of handles and
   * clearing as many times, the deque is what it was before, so the slot
   * re-read from its front is what it was before as well.
   */
  lemma NestedStepsUnwind<T>(entry: seq<T>, hs: seq<T>)
    ensures ClearSteps(PushAll(entry, hs), |hs|) == entry
    ensures Peek(ClearSteps(PushAll(entry, hs), |hs|)) == Peek(entry)
  {
    PushAllKeepsBase(entry, hs);
    ClearStepsDrops(PushAll(entry, hs), |hs|);
  }

  // ---------------------------------------------------------------------
  // Iteration orders of a cache's keys
  // ---------------------------------------------------------------------

  ghost predicate Distinct<K>(ks: seq<K>)
  {
    forall i, j :: 0 <= i < j < |ks| ==> ks[i] != ks[j]
  }

  /** `ks` lists every key in `keys` exactly once: one order `values()` may iterate in. */
  ghost predicate IsEnumeration<K>(ks: seq<K>, keys: set<K>)
  {
    && Distinct(ks)
    && (forall i :: 0 <= i < |ks| ==> ks[i] in keys)
    && (forall k :: k in keys ==> k in ks)
  }

  /** Some enumeration of a finite set of keys. */
  ghost function Enumerate<K>(keys: set<K>): (ks: seq<K>)
    ensures IsEnumeration(ks, keys)
  {
    if keys == {} then []
    else
      var k :| k in keys;
      var ks := Enumerate(keys - {k});
      assert forall i :: 0 <= i < |ks| ==> ks[i] != k;
      ks + [k]
  }

  /** Removing one position of an enumeration enumerates the other keys. */
  lemma RemoveAtEnumerates<K>(ks: seq<K>, keys: set<K>, j: nat)
    requires IsEnumeration(ks, keys) && j < |ks|
    ensures IsEnumeration(ks[..j] + ks[j + 1..], keys - {ks[j]})
  {
    var r := ks[..j] + ks[j + 1..];
    assert forall a :: 0 <= a < |r| ==> r[a] == if a < j then ks[a] else ks[a + 1];
    forall k | k in keys - {ks[j]}
      ensures k in r
    {
      var b :| 0 <= b < |ks| && ks[b] == k;
      if b < j { assert r[b] == k; } else { assert r[b - 1] == k; }
    }
  }

  // ---------------------------------------------------------------------
  // Flattening a cache
  // ---------------------------------------------------------------------

  /** The deques of the keys `ks`, in that order, each front to back. */
  function Flatten<K, T>(m: map<K, seq<T>>, ks: seq<K>): seq<T>
    requires forall i :: 0 <= i < |ks| ==> ks[i] in m
    decreases |ks|
  {
    if ks == [] then [] else Flatten(m, ks[..|ks| - 1]) + m[ks[|ks| - 1]]
  }

  /** Flattening depends only on the deques of the keys listed. */
  lemma {:induction false} FlattenAgrees<K, T>(m1: map<K, seq<T>>, m2: map<K, seq<T>>, ks: seq<K>)
    requires forall i :: 0 <= i < |ks| ==> ks[i] in m1 && ks[i] in m2 && m1[ks[i]] == m2[ks[i]]
    ensures Flatten(m1, ks) == Flatten(m2, ks)
    decreases |ks|
  {
    if ks != [] {
      FlattenAgrees(m1, m2, ks[..|ks| - 1]);
    }
  }

  /** Taking one key out of the order takes exactly its deque out of the contents. */
  lemma {:induction false} FlattenRemoveAt<K, T>(m: map<K, seq<T>>, ks: seq<K>, j: nat)
    requires forall i :: 0 <= i < |ks| ==> ks[i] in m
    requires j < |ks|
    ensures multiset(Flatten(m, ks)) == multiset(Flatten(m, ks[..j] + ks[j + 1..])) + multiset(m[ks[j]])
    decreases |ks|
  {
    var n := |ks| - 1;
    var init := ks[..n];
    var rest := ks[..j] + ks[j + 1..];
    assert Flatten(m, ks) == Flatten(m, init) + m[ks[n]];
    if j == n {
      assert rest == init;
    } else {
      var shorter := init[..j] + init[j + 1..];
      assert rest == shorter + [ks[n]];
      assert rest[..|rest| - 1] == shorter;
      assert Flatten(m, rest) == Flatten(m, shorter) + m[ks[n]];
      FlattenRemoveAt(m, init, j);
    }
  }

  /** Any two orders of the same keys flatten to the same contents. */
  lemma {:induction false} EnumerationsAgree<K, T>(m: map<K, seq<T>>, ks1: seq<K>, ks2: seq<K>, keys: set<K>)
    requires keys <= m.Keys
    requires IsEnumeration(ks1, keys) && IsEnumeration(ks2, keys)
    ensures multiset(Flatten(m, ks1)) == multiset(Flatten(m, ks2))
    decreases |ks1|
  {
    if ks1 == [] {
      assert keys == {};
    } else {
      var n := |ks1| - 1;
      var k := ks1[n];
      assert k in ks2;
      var j :| 0 <= j < |ks2| && ks2[j] == k;
      RemoveAtEnumerates(ks1, keys, n);
      RemoveAtEnumerates(ks2, keys, j);
      assert ks1[..n] + ks1[n + 1..] == ks1[..n];
      EnumerationsAgree(m, ks1[..n], ks2[..j] + ks2[j + 1..], keys - {k});
      FlattenRemoveAt(m, ks2, j);
    }
  }

  /** The contents of a cache: every handle of every deque, counted with multiplicity. */
  ghost function Pending<K, T>(m: map<K, seq<T>>): multiset<T>
  {
    multiset(Flatten(m, Enumerate(m.Keys)))
  }

  /** Whatever order the keys are visited in, the flattened cache holds exactly its contents. */
  lemma PendingOfAnyOrder<K, T>(m: map<K, seq<T>>, ks: seq<K>)
    requires IsEnumeration(ks, m.Keys)
    ensures multiset(Flatten(m, ks)) == Pending(m)
    ensures |Flatten(m, ks)| == |Pending(m)|
  {
    EnumerationsAgree(m, ks, Enumerate(m.Keys), m.Keys);
  }

  /** Replacing one context's deque changes the contents by exactly the old and the new deque. */
  lemma PendingUpdate<K, T>(m: map<K, seq<T>>, k: K, d: seq<T>)
    ensures Pending(m[k := d]) + multiset(EntryOf(m, k)) == Pending(m) + multiset(d)
  {
    if k in m {
      PendingReplace(m, k, d);
    } else {
      PendingInsert(m, k, d);
    }
  }

  lemma PendingReplace<K, T>(m: map<K, seq<T>>, k: K, d: seq<T>)
    requires k in m
    ensures Pending(m[k := d]) + multiset(m[k]) == Pending(m) + multiset(d)
  {
    var ks := Enumerate(m.Keys);
    var m' := m[k := d];
    assert m'.Keys == m.Keys;
    var j :| 0 <= j < |ks| && ks[j] == k;
    var rest := ks[..j] + ks[j + 1..];
    PendingOfAnyOrder(m', ks);
    FlattenRemoveAt(m, ks, j);
    FlattenRemoveAt(m', ks, j);
    RemoveAtEnumerates(ks, m.Keys, j);
    assert forall i :: 0 <= i < |rest| ==> rest[i] != k;
    FlattenAgrees(m, m', rest);
  }

  lemma PendingInsert<K, T>(m: map<K, seq<T>>, k: K, d: seq<T>)
    requires k !in m
    ensures Pending(m[k := d]) == Pending(m) + multiset(d)
  {
    var ks := Enumerate(m.Keys);
    var m' := m[k := d];
    var ks' := ks + [k];
    assert ks'[..|ks|] == ks;
    assert IsEnumeration(ks', m'.Keys);
    FlattenAgrees(m, m', ks);
    PendingOfAnyOrder(m', ks');
  }

  lemma MultisetCancel<T>(p': multiset<T>, p: multiset<T>, e: multiset<T>, c: multiset<T>, r: multiset<T>, a: multiset<T>)
    requires p' + e == p + c
    requires c + r == e + a
    ensures p' + r == p + a
  {
    forall x
      ensures (p' + r)[x] == (p + a)[x]
    {
      assert (p' + e)[x] == (p + c)[x];
      assert (c + r)[x] == (e + a)[x];
    }
  }

  /** A setter call changes its cache's contents by exactly the handle it adds and the handle it removes. */
  lemma MirrorPending<K, T>(m: map<K, seq<T>>, k: K, previous: Option<T>, arg: Option<T>)
    ensures Pending(m[k := Mirror(EntryOf(m, k), previous, arg)]) + Removed(EntryOf(m, k), previous, arg)
         == Pending(m) + Added(arg)
  {
    var e := EntryOf(m, k);
    var c := Mirror(e, previous, arg);
    var r := Removed(e, previous, arg);
    var a := Added(arg);
    PendingUpdate(m, k, c);
    MirrorContents(e, previous, arg);
    MultisetCancel(Pending(m[k := c]), Pending(m), multiset(e), multiset(c), r, a);
  }

  /** Every context's deque in the cache is empty. */
  ghost predicate NothingPending<K, T>(m: map<K, seq<T>>)
  {
    forall k :: k in m ==> m[k] == []
  }

  /** Writing a context's own deque back, after `getEntryFrom` may have inserted it, leaves the contents as they were. */
  lemma PendingOfEntryKept<K, T>(m: map<K, seq<T>>, k: K)
    ensures Pending(m[k := EntryOf(m, k)]) == Pending(m)
  {
    if k in m {
      assert m[k := m[k]] == m;
    } else {
      PendingInsert(m, k, []);
    }
  }

  lemma {:induction false} FlattenNilIff<K, T>(m: map<K, seq<T>>, ks: seq<K>)
    requires forall i :: 0 <= i < |ks| ==> ks[i] in m
    ensures Flatten(m, ks) == [] <==> forall i :: 0 <= i < |ks| ==> m[ks[i]] == []
    decreases |ks|
  {
    if ks != [] {
      FlattenNilIff(m, ks[..|ks| - 1]);
      assert forall i :: 0 <= i < |ks| - 1 ==> ks[..|ks| - 1][i] == ks[i];
    }
  }

  /** A cache holds nothing exactly when every context's deque is empty. */
  lemma PendingEmptyIff<K, T>(m: map<K, seq<T>>)
    ensures Pending(m) == multiset{} <==> NothingPending(m)
  {
    var ks := Enumerate(m.Keys);
    FlattenNilIff(m, ks);
    if forall i :: 0 <= i < |ks| ==> m[ks[i]] == [] {
      forall k | k in m
        ensures m[k] == []
      {
        var i :| 0 <= i < |ks| && ks[i] == k;
      }
    }
  }

  lemma {:induction false} FlattenSingleSourceIn<K, T>(m: map<K, seq<T>>, ks: seq<K>, s: K)
    requires Distinct(ks)
    requires forall i :: 0 <= i < |ks| ==> ks[i] in m
    requires forall k :: k in m && k != s ==> m[k] == []
    ensures Flatten(m, ks) == if s in ks then m[s] else []
    decreases |ks|
  {
    if ks != [] {
      var init := ks[..|ks| - 1];
      FlattenSingleSourceIn(m, init, s);
      var last := ks[|ks| - 1];
      assert ks == init + [last];
      if last == s {
        assert s !in init;
      }
    }
  }

  /** Storing one deque into a cache with nothing pending leaves every other deque empty. */
  lemma NothingPendingElsewhere<K, T>(m: map<K, seq<T>>, s: K, d: seq<T>, m': map<K, seq<T>>)
    requires NothingPending(m) && m' == m[s := d]
    ensures forall k :: k in m' && k != s ==> m'[k] == []
    ensures d == [] ==> NothingPending(m')
  {
  }

  /**
   * When only context `s` has anything pending, the merged cache is exactly
   * the deque of `s`, front to back, whatever order the keys are visited in.
   */
  lemma FlattenSingleSource<K, T>(m: map<K, seq<T>>, ks: seq<K>, s: K)
    requires IsEnumeration(ks, m.Keys)
    requires forall k :: k in m && k != s ==> m[k] == []
    ensures Flatten(m, ks) == EntryOf(m, s)
    ensures EntryOf(m, s) == [] ==> Pending(m) == multiset{}
  {
    FlattenSingleSourceIn(m, ks, s);
    PendingOfAnyOrder(m, ks);
  }

  // ---------------------------------------------------------------------
  // mergeMapValues
  // ---------------------------------------------------------------------

  /** Halfway through an iteration over `keys`: `order` visited so far, each once, and `rest` still to visit. */
  ghost predicate Visiting<K>(order: seq<K>, rest: set<K>, keys: set<K>)
  {
    && rest <= keys
    && Distinct(order)
    && (forall i :: 0 <= i < |order| ==> order[i] in keys && order[i] !in rest)
    && (forall k :: k in keys ==> k in rest || k in order)
  }

  /** Visiting one more key keeps the iteration's bookkeeping; with nothing left, the visit order enumerates the keys. */
  lemma VisitNext<K>(order: seq<K>, rest: set<K>, keys: set<K>, k: K)
    requires Visiting(order, rest, keys) && k in rest
    ensures Visiting(order + [k], rest - {k}, keys)
  {
    var next := order + [k];
    assert forall i :: 0 <= i < |order| ==> next[i] == order[i];
  }

  lemma VisitDone<K>(order: seq<K>, keys: set<K>)
    requires Visiting(order, {}, keys)
    ensures IsEnumeration(order, keys)
  {
  }

  /**
   * `mergeMapValues`: appends every deque of the cache, one after the other,
   * visiting the keys in an order the map does not specify. `order` is the
   * order this run chose.
   */
  method MergeMapValues<K, T>(m: map<K, seq<T>>) returns (merged: seq<T>, ghost order: seq<K>)
    ensures IsEnumeration(order, m.Keys)
    ensures merged == Flatten(m, order)
    ensures multiset(merged) == Pending(m)
    ensures |merged| == |Pending(m)|
  {
    merged, order := [], [];
    var rest := m.Keys;
    while rest != {}
      invariant Visiting(order, rest, m.Keys)
      invariant forall i :: 0 <= i < |order| ==> order[i] in m
      invariant merged == Flatten(m, order)
      decreases rest
    {
      var k :| k in rest;
      ghost var visited := order;
      VisitNext(order, rest, m.Keys, k);
      merged := merged + m[k];
      order := order + [k];
      assert order[..|order| - 1] == visited;
      rest := rest - {k};
    }
    VisitDone(order, m.Keys);
    PendingOfAnyOrder(m, order);
  }
}
