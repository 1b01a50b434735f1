/** Grow-on-demand per-key accumulators, as the analyzers build them with
    `defaultdict`: one bucket per key, created the first time a trade with
    that key is seen, and kept in first-appearance order (Python dicts
    iterate in insertion order).  Used for the hour, weekday, month,
    session and period buckets and for the profit-by-symbol table. */
module Buckets {
  import opened Wrappers
  import opened Trades

  /** Trade count, wins, losses and summed pnl of one key. */
  datatype Bucket = Bucket(count: nat, wins: nat, losses: nat, pnl: real)

  const Empty: Bucket := Bucket(0, 0, 0, 0.0)

  datatype Entry<K> = Entry(key: K, bucket: Bucket)

  /** A bucket never counts more wins and losses than trades. */
  predicate Consistent(b: Bucket) {
    b.wins + b.losses <= b.count
  }

  /** Records one trade: breakeven trades count but are neither wins nor losses. */
  function Add(b: Bucket, t: Trade): (r: Bucket)
    ensures r.count == b.count + 1
    ensures r.pnl == b.pnl + t.profit
    ensures r.wins == b.wins + (if IsWin(t) then 1 else 0)
    ensures r.losses == b.losses + (if IsLoss(t) then 1 else 0)
    ensures Consistent(b) ==> Consistent(r)
  {
    Bucket(
      b.count + 1,
      if t.profit > 0.0 then b.wins + 1 else b.wins,
      if t.profit < 0.0 then b.losses + 1 else b.losses,
      b.pnl + t.profit)
  }

  /** Reference tally: the trades of `s` whose key is `k`, recorded in order. */
  function Tally<K(==)>(s: seq<Trade>, keyOf: Trade -> Option<K>, k: K): Bucket {
    if |s| == 0 then Empty
    else
      var b := Tally(s[..|s| - 1], keyOf, k);
      if keyOf(s[|s| - 1]) == Some(k) then Add(b, s[|s| - 1]) else b
  }

  /** Number and summed profit of the trades that get any key at all. */
  function KeyedCount<K(==)>(s: seq<Trade>, keyOf: Trade -> Option<K>): nat {
    if |s| == 0 then 0
    else KeyedCount(s[..|s| - 1], keyOf) + (if keyOf(s[|s| - 1]).Some? then 1 else 0)
  }

  function KeyedPnl<K(==)>(s: seq<Trade>, keyOf: Trade -> Option<K>): real {
    if |s| == 0 then 0.0
    else KeyedPnl(s[..|s| - 1], keyOf) + (if keyOf(s[|s| - 1]).Some? then s[|s| - 1].profit else 0.0)
  }

  predicate DistinctKeys<K(==)>(es: seq<Entry<K>>) {
    forall i, j :: 0 <= i < j < |es| ==> es[i].key != es[j].key
  }

  predicate HasKey<K(==)>(es: seq<Entry<K>>, k: K) {
    exists i :: 0 <= i < |es| && es[i].key == k
  }

  /** Every reported bucket holds at least one trade and is consistent. */
  predicate Populated<K(==)>(es: seq<Entry<K>>) {
    forall i :: 0 <= i < |es| ==> es[i].bucket.count > 0 && Consistent(es[i].bucket)
  }

  /** The bucket stored under `k`, or the empty bucket `defaultdict` would create. */
  function Lookup<K(==)>(es: seq<Entry<K>>, k: K): (b: Bucket)
    ensures !HasKey(es, k) ==> b == Empty
    ensures DistinctKeys(es) ==> forall i :: 0 <= i < |es| && es[i].key == k ==> b == es[i].bucket
  {
    if |es| == 0 then Empty
    else if es[0].key == k then es[0].bucket
    else
      assert DistinctKeys(es) ==> DistinctKeys(es[1..]);
      Lookup(es[1..], k)
  }

  function SumCounts<K(==)>(es: seq<Entry<K>>): nat {
    if |es| == 0 then 0 else es[0].bucket.count + SumCounts(es[1..])
  }

  function SumPnl<K(==)>(es: seq<Entry<K>>): real {
    if |es| == 0 then 0.0 else es[0].bucket.pnl + SumPnl(es[1..])
  }

  /** Membership in a non-empty list splits into its head and its tail. */
  lemma HasKeyCons<K>(es: seq<Entry<K>>, k: K)
    requires |es| > 0
    ensures HasKey(es, k) <==> es[0].key == k || HasKey(es[1..], k)
  {
    if HasKey(es, k) && es[0].key != k {
      var i :| 0 <= i < |es| && es[i].key == k;
      assert es[1..][i - 1].key == k;
    }
    if HasKey(es[1..], k) {
      var i :| 0 <= i < |es[1..]| && es[1..][i].key == k;
      assert es[i + 1].key == k;
    }
  }

  /** `stats[k]` update of one trade: the existing bucket for `k` grows in
      place, otherwise a new bucket is appended at the end. */
  function Upsert<K(==)>(es: seq<Entry<K>>, k: K, t: Trade): (r: seq<Entry<K>>)
    ensures |r| == |es| || |r| == |es| + 1
    ensures forall i :: 0 <= i < |es| ==> r[i].key == es[i].key
    ensures Populated(es) ==> Populated(r)
    ensures SumCounts(r) == SumCounts(es) + 1
    ensures SumPnl(r) == SumPnl(es) + t.profit
  {
    if |es| == 0 then [Entry(k, Add(Empty, t))]
    else if es[0].key == k then [Entry(k, Add(es[0].bucket, t))] + es[1..]
    else
      var r := [es[0]] + Upsert(es[1..], k, t);
      assert r[1..] == Upsert(es[1..], k, t);
      r
  }

  /** After an upsert the key is present, and the list grew exactly when
      the key was new. */
  lemma {:induction false} UpsertKeys<K>(es: seq<Entry<K>>, k: K, t: Trade)
    ensures HasKey(Upsert(es, k, t), k)
    ensures |Upsert(es, k, t)| == |es| + 1 <==> !HasKey(es, k)
  {
    var r := Upsert(es, k, t);
    if |es| == 0 {
      assert r[0].key == k;
    } else if es[0].key == k {
      assert r[0].key == k && es[0].key == k;
    } else {
      UpsertKeys(es[1..], k, t);
      HasKeyCons(es, k);
      HasKeyCons(r, k);
      assert r[1..] == Upsert(es[1..], k, t);
    }
  }

  /** An upsert never introduces a duplicate key. */
  lemma {:induction false} UpsertDistinct<K>(es: seq<Entry<K>>, k: K, t: Trade)
    requires DistinctKeys(es)
    ensures DistinctKeys(Upsert(es, k, t))
  {
    if |es| > 0 && es[0].key != k {
      var r := Upsert(es, k, t);
      var rest := Upsert(es[1..], k, t);
      assert r[1..] == rest;
      assert DistinctKeys(es[1..]);
      UpsertDistinct(es[1..], k, t);
      UpsertKeys(es[1..], k, t);
      forall i, j | 0 <= i < j < |r|
        ensures r[i].key != r[j].key
      {
        if i > 0 {
          assert r[i] == rest[i - 1] && r[j] == rest[j - 1];
        } else if j < |es| {
          assert r[j].key == es[j].key;
        } else {
          assert |rest| == |es[1..]| + 1;
          UpsertLastIsNew(es[1..], k, t);
          assert r[j] == rest[j - 1] == Entry(k, Add(Empty, t));
        }
      }
    }
  }

  /** Lookups after an upsert: only the key that was written changes, and
      it changes by exactly one recorded trade. */
  lemma {:induction false} UpsertLookup<K>(es: seq<Entry<K>>, k: K, t: Trade, k': K)
    requires DistinctKeys(es)
    ensures Lookup(Upsert(es, k, t), k') == if k' == k then Add(Lookup(es, k), t) else Lookup(es, k')
  {
    if |es| > 0 && es[0].key != k {
      assert DistinctKeys(es[1..]);
      UpsertLookup(es[1..], k, t, k');
      var r := Upsert(es, k, t);
      assert r[1..] == Upsert(es[1..], k, t);
    }
  }

  lemma {:induction false} UpsertHasKey<K>(es: seq<Entry<K>>, k: K, t: Trade, k': K)
    ensures HasKey(Upsert(es, k, t), k') <==> HasKey(es, k') || k' == k
  {
    var r := Upsert(es, k, t);
    if HasKey(es, k') {
      var i :| 0 <= i < |es| && es[i].key == k';
      assert r[i].key == k';
    }
    UpsertKeys(es, k, t);
    if HasKey(r, k') && k' != k {
      var i :| 0 <= i < |r| && r[i].key == k';
      if |r| == |es| + 1 {
        UpsertLastIsNew(es, k, t);
      }
      assert i < |es|;
      assert es[i].key == k';
    }
  }

  /** An appended bucket is the new key's. */
  lemma {:induction false} UpsertLastIsNew<K>(es: seq<Entry<K>>, k: K, t: Trade)
    requires !HasKey(es, k)
    ensures Upsert(es, k, t) == es + [Entry(k, Add(Empty, t))]
  {
    if |es| > 0 {
      HasKeyCons(es, k);
      UpsertLastIsNew(es[1..], k, t);
      calc {
        Upsert(es, k, t);
        [es[0]] + Upsert(es[1..], k, t);
        [es[0]] + (es[1..] + [Entry(k, Add(Empty, t))]);
        { assert es == [es[0]] + es[1..]; }
        es + [Entry(k, Add(Empty, t))];
      }
    }
  }

  /** The buckets of `s` keyed by `keyOf`; trades without a key are skipped. */
  function Group<K(==)>(s: seq<Trade>, keyOf: Trade -> Option<K>): (r: seq<Entry<K>>)
    ensures DistinctKeys(r)
    ensures Populated(r)
    ensures SumCounts(r) == KeyedCount(s, keyOf)
    ensures SumPnl(r) == KeyedPnl(s, keyOf)
  {
    if |s| == 0 then []
    else
      var g := Group(s[..|s| - 1], keyOf);
      match keyOf(s[|s| - 1])
      case Some(k) =>
        UpsertDistinct(g, k, s[|s| - 1]);
        Upsert(g, k, s[|s| - 1])
      case None => g
  }

  /** Each bucket is exactly the tally of the trades carrying its key, so
      every keyed trade is counted once, under its own key only. */
  lemma {:induction false} GroupIsTally<K>(s: seq<Trade>, keyOf: Trade -> Option<K>, k: K)
    ensures Lookup(Group(s, keyOf), k) == Tally(s, keyOf, k)
    ensures HasKey(Group(s, keyOf), k) <==> Tally(s, keyOf, k).count > 0
  {
    if |s| > 0 {
      var init, last := s[..|s| - 1], s[|s| - 1];
      GroupIsTally(init, keyOf, k);
      var g := Group(init, keyOf);
      match keyOf(last)
      case Some(k0) =>
        UpsertLookup(g, k0, last, k);
        UpsertHasKey(g, k0, last, k);
        UpsertKeys(g, k0, last);
        if HasKey(g, k) {
          var i :| 0 <= i < |g| && g[i].key == k;
          assert Lookup(g, k) == g[i].bucket;
        }
      case None =>
    }
  }

  /** A trade's own key has a non-empty tally. */
  lemma {:induction false} TallyOfMember<K>(s: seq<Trade>, keyOf: Trade -> Option<K>, i: int)
    requires 0 <= i < |s| && keyOf(s[i]).Some?
    ensures Tally(s, keyOf, keyOf(s[i]).value).count > 0
  {
    if i < |s| - 1 {
      TallyOfMember(s[..|s| - 1], keyOf, i);
    }
  }

  /** Position of the first trade of `s` carrying key `k`, or `|s|` when
      none does. */
  function FirstSeen<K(==)>(s: seq<Trade>, keyOf: Trade -> Option<K>, k: K): (n: nat)
    ensures n <= |s|
    ensures n < |s| ==> keyOf(s[n]) == Some(k)
    ensures forall i :: 0 <= i < n ==> keyOf(s[i]) != Some(k)
  {
    if |s| == 0 then 0
    else
      var init := s[..|s| - 1];
      var n := FirstSeen(init, keyOf, k);
      assert forall i :: 0 <= i < |init| ==> init[i] == s[i];
      if n < |init| then n
      else if keyOf(s[|s| - 1]) == Some(k) then |init|
      else |s|
  }

  /** The keys of `es` come in the order their first trades appear in `s`,
      and each of them appears there. */
  predicate FirstSeenOrder<K(==)>(s: seq<Trade>, keyOf: Trade -> Option<K>, es: seq<Entry<K>>) {
    && (forall i :: 0 <= i < |es| ==> FirstSeen(s, keyOf, es[i].key) < |s|)
    && (forall i, j :: 0 <= i < j < |es| ==> FirstSeen(s, keyOf, es[i].key) < FirstSeen(s, keyOf, es[j].key))
  }

  /** The buckets are in first-seen order, as a dict filled trade by trade
      iterates. */
  lemma {:induction false} GroupFirstSeen<K>(s: seq<Trade>, keyOf: Trade -> Option<K>)
    ensures FirstSeenOrder(s, keyOf, Group(s, keyOf))
  {
    if |s| > 0 {
      var init := s[..|s| - 1];
      GroupFirstSeen(init, keyOf);
      var g := Group(init, keyOf);
      FirstSeenGrows(s, keyOf, g);
      match keyOf(s[|s| - 1])
      case Some(k) =>
        UpsertKeys(g, k, s[|s| - 1]);
        if HasKey(g, k) {
          UpsertSameKeys(s, keyOf, g, k);
        } else {
          assert FirstSeen(init, keyOf, k) == |init| by {
            if FirstSeen(init, keyOf, k) < |init| {
              TallyOfMember(init, keyOf, FirstSeen(init, keyOf, k));
              GroupIsTally(init, keyOf, k);
            }
          }
          UpsertLastIsNew(g, k, s[|s| - 1]);
          AppendFirstSeen(s, keyOf, g, Entry(k, Add(Empty, s[|s| - 1])));
        }
      case None =>
    }
  }

  /** Keys first seen before the last trade keep their order in the whole list. */
  lemma FirstSeenGrows<K>(s: seq<Trade>, keyOf: Trade -> Option<K>, g: seq<Entry<K>>)
    requires |s| > 0 && FirstSeenOrder(s[..|s| - 1], keyOf, g)
    ensures FirstSeenOrder(s, keyOf, g)
    ensures forall i :: 0 <= i < |g| ==> FirstSeen(s, keyOf, g[i].key) < |s| - 1
  {
    forall i | 0 <= i < |g|
      ensures FirstSeen(s, keyOf, g[i].key) == FirstSeen(s[..|s| - 1], keyOf, g[i].key)
    {
    }
  }

  /** Updating a present key leaves the key order as it was. */
  lemma UpsertSameKeys<K>(s: seq<Trade>, keyOf: Trade -> Option<K>, g: seq<Entry<K>>, k: K)
    requires |s| > 0 && FirstSeenOrder(s, keyOf, g)
    requires |Upsert(g, k, s[|s| - 1])| == |g|
    ensures FirstSeenOrder(s, keyOf, Upsert(g, k, s[|s| - 1]))
  {
    var r := Upsert(g, k, s[|s| - 1]);
    assert forall i :: 0 <= i < |r| ==> r[i].key == g[i].key;
  }

  /** A key first seen at the last trade goes after all the others. */
  lemma AppendFirstSeen<K>(s: seq<Trade>, keyOf: Trade -> Option<K>, g: seq<Entry<K>>, e: Entry<K>)
    requires |s| > 0 && FirstSeenOrder(s, keyOf, g)
    requires forall i :: 0 <= i < |g| ==> FirstSeen(s, keyOf, g[i].key) < |s| - 1
    requires FirstSeen(s, keyOf, e.key) == |s| - 1
    ensures FirstSeenOrder(s, keyOf, g + [e])
  {
    var r := g + [e];
    assert forall i :: 0 <= i < |g| ==> r[i] == g[i];
  }

  /** A key no trade carries has an empty tally. */
  lemma {:induction false} TallyOfAbsent<K>(s: seq<Trade>, keyOf: Trade -> Option<K>, k: K)
    requires forall i :: 0 <= i < |s| ==> keyOf(s[i]) != Some(k)
    ensures Tally(s, keyOf, k) == Empty
  {
    if |s| > 0 {
      TallyOfAbsent(s[..|s| - 1], keyOf, k);
    }
  }

  /** When every trade gets a key, the buckets together hold all trades and all profit. */
  lemma {:induction false} KeyedTotals<K>(s: seq<Trade>, keyOf: Trade -> Option<K>)
    requires forall i :: 0 <= i < |s| ==> keyOf(s[i]).Some?
    ensures KeyedCount(s, keyOf) == |s|
    ensures KeyedPnl(s, keyOf) == SumProfit(s)
  {
    if |s| > 0 {
      KeyedTotals(s[..|s| - 1], keyOf);
    }
  }
}
