/** A stable insertion sort on a lexicographic pair key.  Python's `sorted`
    and `list.sort` are stable, and the analyzers sort by a timestamp or by
    the pair (win rate, average pnl); both fit this one key shape. */
module StableSort {

  /** Sort key compared lexicographically: first `major`, then `minor`. */
  datatype Rank = Rank(major: real, minor: real)

  predicate RankLe(a: Rank, b: Rank) {
    a.major < b.major || (a.major == b.major && a.minor <= b.minor)
  }

  predicate SortedOn<T>(s: seq<T>, key: T -> Rank) {
    forall i, j :: 0 <= i < j < |s| ==> RankLe(key(s[i]), key(s[j]))
  }

  /** The elements of `s` whose key is exactly `k`, in their order in `s`. */
  function WithKey<T>(s: seq<T>, key: T -> Rank, k: Rank): seq<T> {
    if |s| == 0 then []
    else WithKey(s[..|s| - 1], key, k) + (if key(s[|s| - 1]) == k then [s[|s| - 1]] else [])
  }

  /** `r` keeps the relative order of every group of equal keys of `s`:
      the defining property of a stable sort. */
  ghost predicate KeepsTies<T>(s: seq<T>, r: seq<T>, key: T -> Rank) {
    forall k :: WithKey(r, key, k) == WithKey(s, key, k)
  }

  /** Places `x` after every element whose key is at most its own, so
      that among equal keys the element inserted later stays later. */
  function Insert<T>(r: seq<T>, x: T, key: T -> Rank): (out: seq<T>)
    ensures |out| == |r| + 1
    ensures multiset(out) == multiset(r) + multiset{x}
    ensures SortedOn(r, key) ==> SortedOn(out, key)
    ensures forall k :: WithKey(out, key, k) == WithKey(r, key, k) + (if key(x) == k then [x] else [])
  {
    if |r| == 0 then [x]
    else if RankLe(key(r[|r| - 1]), key(x)) then r + [x]
    else
      var init, last := r[..|r| - 1], r[|r| - 1];
      assert r == init + [last];
      var rest := Insert(init, x, key);
      InsertBeforeLast(init, last, x, key, rest);
      TiesBeforeLast(init, last, x, key, rest);
      rest + [last]
  }

  /** When `x` goes before the last element, the rest stays at most it. */
  lemma InsertBeforeLast<T>(init: seq<T>, last: T, x: T, key: T -> Rank, rest: seq<T>)
    requires !RankLe(key(last), key(x))
    requires multiset(rest) == multiset(init) + multiset{x}
    requires SortedOn(init, key) ==> SortedOn(rest, key)
    ensures SortedOn(init + [last], key) ==> SortedOn(rest + [last], key)
  {
    var r := init + [last];
    assert r[|init|] == last;
    if SortedOn(r, key) {
      assert SortedOn(init, key) by {
        forall i, j | 0 <= i < j < |init|
          ensures RankLe(key(init[i]), key(init[j]))
        {
          assert r[i] == init[i] && r[j] == init[j];
        }
      }
      forall i | 0 <= i < |rest|
        ensures RankLe(key(rest[i]), key(last))
      {
        assert rest[i] in multiset(rest);
        if rest[i] != x {
          assert rest[i] in multiset(init);
          var k :| 0 <= k < |init| && init[k] == rest[i];
          assert r[k] == rest[i];
        }
      }
    }
  }

  /** Placing `x` before a last element of another key leaves every group
      of equal keys as appending `x` would. */
  lemma TiesBeforeLast<T>(init: seq<T>, last: T, x: T, key: T -> Rank, rest: seq<T>)
    requires key(x) != key(last)
    requires forall k :: WithKey(rest, key, k) == WithKey(init, key, k) + (if key(x) == k then [x] else [])
    ensures forall k :: WithKey(rest + [last], key, k) == WithKey(init + [last], key, k) + (if key(x) == k then [x] else [])
  {
    assert (rest + [last])[..|rest|] == rest;
    assert (init + [last])[..|init|] == init;
  }

  /** Sorts by `key`, keeping equal keys in input order. */
  function SortOn<T>(s: seq<T>, key: T -> Rank): (r: seq<T>)
    ensures |r| == |s|
    ensures multiset(r) == multiset(s)
    ensures SortedOn(r, key)
    ensures KeepsTies(s, r, key)
  {
    if |s| == 0 then []
    else
      assert s == s[..|s| - 1] + [s[|s| - 1]];
      Insert(SortOn(s[..|s| - 1], key), s[|s| - 1], key)
  }

  /** Sorting an already sorted list changes nothing: equal keys are never
      swapped. */
  lemma {:induction false} SortOnSorted<T>(s: seq<T>, key: T -> Rank)
    requires SortedOn(s, key)
    ensures SortOn(s, key) == s
  {
    if |s| > 0 {
      var init, last := s[..|s| - 1], s[|s| - 1];
      SortedInit(s, key);
      SortOnSorted(init, key);
      InsertAfterLast(init, last, key);
      assert s == init + [last];
    }
  }

  /** Dropping the last element keeps a list sorted, and that element ranks
      at least the one before it. */
  lemma SortedInit<T>(s: seq<T>, key: T -> Rank)
    requires |s| > 0 && SortedOn(s, key)
    ensures SortedOn(s[..|s| - 1], key)
    ensures |s| > 1 ==> RankLe(key(s[..|s| - 1][|s| - 2]), key(s[|s| - 1]))
  {
    var init := s[..|s| - 1];
    forall i, j | 0 <= i < j < |init|
      ensures RankLe(key(init[i]), key(init[j]))
    {
      assert init[i] == s[i] && init[j] == s[j];
    }
  }

  /** An element ranking at least the last one is inserted at the end. */
  lemma InsertAfterLast<T>(r: seq<T>, x: T, key: T -> Rank)
    requires |r| > 0 ==> RankLe(key(r[|r| - 1]), key(x))
    ensures Insert(r, x, key) == r + [x]
  {
  }

  /** `a` sorts strictly before `b`. */
  predicate RankLt(a: Rank, b: Rank) {
    !RankLe(b, a)
  }

  /** Position `q` holds a greatest key of `s`, and every earlier position
      a strictly smaller one: the first greatest element. */
  predicate FirstGreatest<T>(s: seq<T>, key: T -> Rank, q: int) {
    && 0 <= q < |s|
    && (forall k :: 0 <= k < |s| ==> RankLe(key(s[k]), key(s[q])))
    && (forall k :: 0 <= k < q ==> RankLt(key(s[k]), key(s[q])))
  }

  /** Position `q` holds a least key of `s`, the first one among equals. */
  predicate FirstLeast<T>(s: seq<T>, key: T -> Rank, q: int) {
    && 0 <= q < |s|
    && (forall k :: 0 <= k < |s| ==> RankLe(key(s[q]), key(s[k])))
    && (forall k :: 0 <= k < q ==> RankLt(key(s[q]), key(s[k])))
  }

  /** Position picked by Python's `max(s, key=...)`: a greatest key, and the
      first one among equals, since later elements replace the running
      maximum only when strictly greater. */
  function ArgMax<T>(s: seq<T>, key: T -> Rank): (q: nat)
    requires |s| > 0
    ensures q < |s|
    ensures forall k :: 0 <= k < |s| ==> RankLe(key(s[k]), key(s[q]))
    ensures forall k :: 0 <= k < q ==> RankLt(key(s[k]), key(s[q]))
  {
    if |s| == 1 then 0
    else
      var q := ArgMax(s[..|s| - 1], key);
      assert forall k :: 0 <= k < |s| - 1 ==> s[..|s| - 1][k] == s[k];
      if RankLt(key(s[q]), key(s[|s| - 1])) then |s| - 1 else q
  }

  /** Position picked by Python's `min(s, key=...)`: a least key, the first
      one among equals. */
  function ArgMin<T>(s: seq<T>, key: T -> Rank): (q: nat)
    requires |s| > 0
    ensures q < |s|
    ensures forall k :: 0 <= k < |s| ==> RankLe(key(s[q]), key(s[k]))
    ensures forall k :: 0 <= k < q ==> RankLt(key(s[q]), key(s[k]))
  {
    if |s| == 1 then 0
    else
      var q := ArgMin(s[..|s| - 1], key);
      assert forall k :: 0 <= k < |s| - 1 ==> s[..|s| - 1][k] == s[k];
      if RankLt(key(s[|s| - 1]), key(s[q])) then |s| - 1 else q
  }
}
