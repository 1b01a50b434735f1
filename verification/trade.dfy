/** The trade record and its derived, read-only properties
    (src/models/trade.py), plus the order-preserving filters and profit
    sums every analyzer builds on. */
module Trades {
  import opened Wrappers
  import opened Calendar
  import opened StableSort

  /** One journal entry.  Money fields are exact reals; `closeTime` is
      absent while the trade is still open. */
  datatype Trade = Trade(
    ticket: int,
    symbol: string,
    orderType: string,
    volume: real,
    openTime: Timestamp,
    openPrice: real,
    closeTime: Option<Timestamp>,
    closePrice: Option<real>,
    sl: Option<real>,
    tp: Option<real>,
    commission: real,
    swap: real,
    profit: real,
    magic: Option<int>,
    comment: Option<string>
  )

  datatype Outcome = Win | Loss | Breakeven | Open

  predicate IsClosed(t: Trade) {
    t.closeTime.Some?
  }

  predicate IsOpen(t: Trade) {
    !IsClosed(t)
  }

  predicate IsWin(t: Trade) {
    t.profit > 0.0
  }

  predicate IsLoss(t: Trade) {
    t.profit < 0.0
  }

  predicate IsBreakeven(t: Trade) {
    t.profit == 0.0
  }

  /** Seconds between opening and closing; absent for an open trade. */
  function Duration(t: Trade): (d: Option<int>)
    ensures d.Some? <==> IsClosed(t)
    ensures d.Some? ==> t.openTime + d.value == t.closeTime.value
  {
    match t.closeTime
    case Some(c) => Some(c - t.openTime)
    case None => None
  }

  /** OPEN while the trade is open, otherwise the sign of its profit. */
  function Result(t: Trade): (o: Outcome)
    ensures o == Open <==> !IsClosed(t)
    ensures IsClosed(t) ==> (o == Win <==> t.profit > 0.0)
    ensures IsClosed(t) ==> (o == Loss <==> t.profit < 0.0)
    ensures IsClosed(t) ==> (o == Breakeven <==> t.profit == 0.0)
  {
    if !IsClosed(t) then Open
    else if t.profit > 0.0 then Win
    else if t.profit < 0.0 then Loss
    else Breakeven
  }

  /** The close time of a closed trade (the analyzers only ask closed trades). */
  function CloseKey(t: Trade): Timestamp {
    match t.closeTime
    case Some(c) => c
    case None => 0
  }

  function CloseRank(t: Trade): Rank {
    Rank(CloseKey(t) as real, 0.0)
  }

  /** Ascending close times; equal close times are allowed. */
  predicate Chronological(s: seq<Trade>) {
    forall i, j :: 0 <= i < j < |s| ==> CloseKey(s[i]) <= CloseKey(s[j])
  }

  /** `sorted(trades, key=lambda t: t.close_time)`: a stable sort, so trades
      closing at the same instant keep their input order. */
  function ByCloseTime(s: seq<Trade>): (r: seq<Trade>)
    ensures |r| == |s|
    ensures multiset(r) == multiset(s)
    ensures Chronological(r)
    ensures KeepsTies(s, r, CloseRank)
  {
    var r := SortOn(s, CloseRank);
    assert forall i, j :: 0 <= i < j < |r| ==> RankLe(CloseRank(r[i]), CloseRank(r[j]));
    r
  }

  /** Order-preserving selection, as a Python list comprehension with a condition. */
  function Filter<T>(s: seq<T>, p: T -> bool): (r: seq<T>)
    ensures |r| <= |s|
    ensures forall i :: 0 <= i < |r| ==> p(r[i])
    ensures forall i :: 0 <= i < |r| ==> r[i] in s
    ensures forall i :: 0 <= i < |s| && p(s[i]) ==> s[i] in r
  {
    if |s| == 0 then []
    else Filter(s[..|s| - 1], p) + (if p(s[|s| - 1]) then [s[|s| - 1]] else [])
  }

  /** `Filter` keeps every copy of a selected element and no copy of any other. */
  lemma {:induction false} FilterCounts<T>(s: seq<T>, p: T -> bool)
    ensures forall x :: multiset(Filter(s, p))[x] == if p(x) then multiset(s)[x] else 0
  {
    if |s| > 0 {
      var init, last := s[..|s| - 1], s[|s| - 1];
      FilterCounts(init, p);
      assert s == init + [last];
    }
  }

  function Closed(s: seq<Trade>): (r: seq<Trade>)
    ensures forall i :: 0 <= i < |r| ==> IsClosed(r[i])
  {
    Filter(s, IsClosed)
  }

  /** Sum of profits, added left to right from zero. */
  function SumProfit(s: seq<Trade>): real {
    if |s| == 0 then 0.0 else SumProfit(s[..|s| - 1]) + s[|s| - 1].profit
  }

  lemma {:induction false} SumProfitAppend(s: seq<Trade>, u: seq<Trade>)
    ensures SumProfit(s + u) == SumProfit(s) + SumProfit(u)
    decreases |u|
  {
    if |u| == 0 {
      assert s + u == s;
    } else {
      assert (s + u)[..|s + u| - 1] == s + u[..|u| - 1];
      SumProfitAppend(s, u[..|u| - 1]);
    }
  }

  /** Splitting a list by two complementary predicates keeps every element
      exactly once: the lengths and the profit sums add up. */
  lemma {:induction false} FilterSplit(s: seq<Trade>, p: Trade -> bool, q: Trade -> bool)
    requires forall i :: 0 <= i < |s| ==> (p(s[i]) <==> !q(s[i]))
    ensures |Filter(s, p)| + |Filter(s, q)| == |s|
    ensures SumProfit(Filter(s, p)) + SumProfit(Filter(s, q)) == SumProfit(s)
  {
    if |s| > 0 {
      var init, last := s[..|s| - 1], s[|s| - 1];
      FilterSplit(init, p, q);
      var tailP := if p(last) then [last] else [];
      var tailQ := if q(last) then [last] else [];
      SumProfitAppend(Filter(init, p), tailP);
      SumProfitAppend(Filter(init, q), tailQ);
      assert SumProfit([last]) == last.profit by {
        assert [last][..0] == [];
      }
    }
  }

  /** Three mutually exclusive, exhaustive predicates partition a list. */
  lemma {:induction false} FilterSplit3(s: seq<Trade>, p: Trade -> bool, q: Trade -> bool, r: Trade -> bool)
    requires forall i :: 0 <= i < |s| ==> (p(s[i]) || q(s[i]) || r(s[i]))
    requires forall i :: 0 <= i < |s| ==> !(p(s[i]) && q(s[i])) && !(p(s[i]) && r(s[i])) && !(q(s[i]) && r(s[i]))
    ensures |Filter(s, p)| + |Filter(s, q)| + |Filter(s, r)| == |s|
    ensures SumProfit(Filter(s, p)) + SumProfit(Filter(s, q)) + SumProfit(Filter(s, r)) == SumProfit(s)
  {
    if |s| > 0 {
      var init, last := s[..|s| - 1], s[|s| - 1];
      FilterSplit3(init, p, q, r);
      assert SumProfit([last]) == last.profit by {
        assert [last][..0] == [];
      }
      SumProfitAppend(Filter(init, p), if p(last) then [last] else []);
      SumProfitAppend(Filter(init, q), if q(last) then [last] else []);
      SumProfitAppend(Filter(init, r), if r(last) then [last] else []);
    }
  }

  /** Reordering trades does not change their total profit. */
  lemma {:induction false} SumProfitReorder(a: seq<Trade>, b: seq<Trade>)
    requires multiset(a) == multiset(b)
    ensures SumProfit(a) == SumProfit(b)
    decreases |a|
  {
    if |a| == 0 {
      assert |multiset(b)| == 0;
    } else {
      var x := a[|a| - 1];
      assert a == a[..|a| - 1] + [x];
      assert x in multiset(b);
      var k :| 0 <= k < |b| && b[k] == x;
      var b' := b[..k] + b[k + 1..];
      assert b == b[..k] + [x] + b[k + 1..];
      assert multiset(b') == multiset(b) - multiset{x};
      assert multiset(a[..|a| - 1]) == multiset(b');
      SumProfitReorder(a[..|a| - 1], b');
      SumProfitRemoveAt(b, k);
    }
  }

  /** Taking out the trade at position `k` takes its profit out of the total. */
  lemma {:induction false} SumProfitRemoveAt(b: seq<Trade>, k: int)
    requires 0 <= k < |b|
    ensures SumProfit(b) == SumProfit(b[..k] + b[k + 1..]) + b[k].profit
  {
    var x := b[k];
    assert b == b[..k] + [x] + b[k + 1..];
    assert SumProfit([x]) == x.profit by {
      assert [x][..0] == [];
    }
    SumProfitAppend(b[..k], [x]);
    SumProfitAppend(b[..k] + [x], b[k + 1..]);
    SumProfitAppend(b[..k], b[k + 1..]);
  }

  /** The sign of every summand carries over to the sum. */
  lemma {:induction false} SumProfitSign(s: seq<Trade>)
    ensures (forall i :: 0 <= i < |s| ==> s[i].profit >= 0.0) ==> SumProfit(s) >= 0.0
    ensures (forall i :: 0 <= i < |s| ==> s[i].profit <= 0.0) ==> SumProfit(s) <= 0.0
    ensures (forall i :: 0 <= i < |s| ==> s[i].profit == 0.0) ==> SumProfit(s) == 0.0
  {
    if |s| > 0 {
      SumProfitSign(s[..|s| - 1]);
    }
  }
}
