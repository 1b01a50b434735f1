/** The basic-statistics aggregator (src/analyzers/basic_stats.py): one
    immutable snapshot of counts, profit figures, drawdown, streaks,
    per-day and per-symbol profit and average durations. */
module BasicStats {
  import opened Wrappers
  import opened Calendar
  import opened Trades
  import Buckets

  // ---------------------------------------------------------------------
  // Ratios with a defined empty case

  /** `wins / closed if closed > 0 else 0.0` */
  function WinRate(wins: nat, closed: nat): (r: real)
    requires wins <= closed
    ensures 0.0 <= r <= 1.0
    ensures closed == 0 ==> r == 0.0
    ensures MeanOf(r, wins as real, closed)
  {
    if closed > 0 then (wins as real) / (closed as real) else 0.0
  }

  /** Mean of a total over `count` items, zero for no items. */
  function Average(total: real, count: nat): (r: real)
    ensures count == 0 ==> r == 0.0
    ensures MeanOf(r, total, count)
    ensures total >= 0.0 ==> r >= 0.0
  {
    if count > 0 then total / (count as real) else 0.0
  }

  /** Gross profit over gross loss, or the "no losses" infinity. */
  function ProfitFactor(grossProfit: real, grossLoss: real): (r: Ext)
    ensures grossLoss != 0.0 ==> r.Finite? && QuotientOf(r.value, grossProfit, grossLoss)
    ensures grossLoss == 0.0 ==> r == Unbounded
  {
    if grossLoss != 0.0 then Finite(grossProfit / grossLoss) else Unbounded
  }

  // ---------------------------------------------------------------------
  // Largest win and loss

  /** `max(profits, default=0)` */
  function LargestProfit(s: seq<Trade>): (r: real)
    ensures |s| == 0 ==> r == 0.0
    ensures forall i :: 0 <= i < |s| ==> s[i].profit <= r
    ensures |s| > 0 ==> exists i :: 0 <= i < |s| && s[i].profit == r
  {
    if |s| == 0 then 0.0
    else
      var m := LargestProfit(s[..|s| - 1]);
      if |s| == 1 || s[|s| - 1].profit > m then s[|s| - 1].profit else m
  }

  /** `min(profits, default=0)` */
  function SmallestProfit(s: seq<Trade>): (r: real)
    ensures |s| == 0 ==> r == 0.0
    ensures forall i :: 0 <= i < |s| ==> r <= s[i].profit
    ensures |s| > 0 ==> exists i :: 0 <= i < |s| && s[i].profit == r
  {
    if |s| == 0 then 0.0
    else
      var m := SmallestProfit(s[..|s| - 1]);
      if |s| == 1 || s[|s| - 1].profit < m then s[|s| - 1].profit else m
  }

  // ---------------------------------------------------------------------
  // Maximum drawdown from a zero-based running balance

  /** Running balance after the first `i` trades of the walk. */
  function Balance(s: seq<Trade>, i: int): real
    requires 0 <= i <= |s|
  {
    SumProfit(s[..i])
  }

  /** `peak` is the highest running balance, the zero start included. */
  predicate IsPeak(s: seq<Trade>, peak: real) {
    && (forall j :: 0 <= j <= |s| ==> Balance(s, j) <= peak)
    && (exists j :: 0 <= j <= |s| && Balance(s, j) == peak)
  }

  /** `amount` is the deepest fall from a running balance to the same or a
      later one. */
  predicate IsDeepestFall(s: seq<Trade>, amount: real) {
    && (forall j, i :: 0 <= j <= i <= |s| ==> Balance(s, j) - Balance(s, i) <= amount)
    && (exists j, i :: 0 <= j <= i <= |s| && Balance(s, j) - Balance(s, i) == amount)
  }

  datatype DrawdownWalk = DrawdownWalk(balance: real, peak: real, maxAmount: real)

  /** The loop of `_calculate_drawdown`: balance, running peak (starting at
      zero) and the largest peak-to-balance gap seen so far. */
  function WalkDrawdown(s: seq<Trade>): (w: DrawdownWalk)
    ensures w.balance == SumProfit(s)
    ensures IsPeak(s, w.peak)
    ensures IsDeepestFall(s, w.maxAmount)
  {
    if |s| == 0 then
      assert Balance(s, 0) == 0.0;
      DrawdownWalk(0.0, 0.0, 0.0)
    else
      var init := s[..|s| - 1];
      var w := WalkDrawdown(init);
      var balance := w.balance + s[|s| - 1].profit;
      var peak := if balance > w.peak then balance else w.peak;
      var maxAmount := if peak - balance > w.maxAmount then peak - balance else w.maxAmount;
      DrawdownStep(s, init, w.peak, w.maxAmount, balance, peak, maxAmount);
      DrawdownWalk(balance, peak, maxAmount)
  }

  lemma DrawdownStep(s: seq<Trade>, init: seq<Trade>, peak0: real, max0: real,
                     balance: real, peak: real, maxAmount: real)
    requires |s| > 0 && init == s[..|s| - 1]
    requires IsPeak(init, peak0) && IsDeepestFall(init, max0)
    requires balance == SumProfit(s)
    requires peak == if balance > peak0 then balance else peak0
    requires maxAmount == if peak - balance > max0 then peak - balance else max0
    ensures IsPeak(s, peak)
    ensures IsDeepestFall(s, maxAmount)
  {
    BalancePrefix(s, init);
    PeakStep(s, init, peak0, peak);
    FallStep(s, init, max0, peak, maxAmount);
  }

  /** The walk's balances agree with its prefix's, and the last is the net. */
  lemma BalancePrefix(s: seq<Trade>, init: seq<Trade>)
    requires |s| > 0 && init == s[..|s| - 1]
    ensures forall j :: 0 <= j < |s| ==> Balance(s, j) == Balance(init, j)
    ensures Balance(s, |s|) == SumProfit(s)
  {
    assert s[..|s|] == s;
    forall j | 0 <= j < |s|
      ensures Balance(s, j) == Balance(init, j)
    {
      assert s[..j] == init[..j];
    }
  }

  lemma PeakStep(s: seq<Trade>, init: seq<Trade>, peak0: real, peak: real)
    requires |s| > 0 && init == s[..|s| - 1]
    requires forall j :: 0 <= j < |s| ==> Balance(s, j) == Balance(init, j)
    requires IsPeak(init, peak0)
    requires peak == if Balance(s, |s|) > peak0 then Balance(s, |s|) else peak0
    ensures IsPeak(s, peak)
  {
    var n := |s|;
    forall j | 0 <= j <= n
      ensures Balance(s, j) <= peak
    {
      if j < n {
        assert Balance(init, j) <= peak0;
      }
    }
    if Balance(s, n) <= peak0 {
      var j :| 0 <= j <= n - 1 && Balance(init, j) == peak0;
      assert Balance(s, j) == peak;
    }
  }

  lemma FallStep(s: seq<Trade>, init: seq<Trade>, max0: real, peak: real, maxAmount: real)
    requires |s| > 0 && init == s[..|s| - 1]
    requires forall j :: 0 <= j < |s| ==> Balance(s, j) == Balance(init, j)
    requires IsPeak(s, peak) && IsDeepestFall(init, max0)
    requires maxAmount == if peak - Balance(s, |s|) > max0 then peak - Balance(s, |s|) else max0
    ensures IsDeepestFall(s, maxAmount)
  {
    var n := |s|;
    forall j, i | 0 <= j <= i <= n
      ensures Balance(s, j) - Balance(s, i) <= maxAmount
    {
      if i < n {
        assert Balance(init, j) - Balance(init, i) <= max0;
      }
    }
    if peak - Balance(s, n) > max0 {
      var j :| 0 <= j <= n && Balance(s, j) == peak;
      assert Balance(s, j) - Balance(s, n) == maxAmount;
    } else {
      var j, i :| 0 <= j <= i <= n - 1 && Balance(init, j) - Balance(init, i) == max0;
      assert Balance(s, j) - Balance(s, i) == maxAmount;
    }
  }

  /** Only one value can be the highest running balance. */
  lemma PeakUnique(s: seq<Trade>, a: real, b: real)
    requires IsPeak(s, a) && IsPeak(s, b)
    ensures a == b
  {
    var i :| 0 <= i <= |s| && Balance(s, i) == a;
    var j :| 0 <= j <= |s| && Balance(s, j) == b;
    assert Balance(s, i) <= b && Balance(s, j) <= a;
  }

  datatype DrawdownFigures = DrawdownFigures(pct: real, amount: real)

  /** The deepest fall of a walk, and that fall as a percentage of the
      highest balance reached (zero when that never rose above zero). */
  function DrawdownOf(sorted: seq<Trade>): (r: DrawdownFigures)
    ensures r.amount >= 0.0 && r.pct >= 0.0
    ensures IsDeepestFall(sorted, r.amount)
    ensures forall peak :: IsPeak(sorted, peak) ==>
      r.pct == if peak > 0.0 then r.amount / peak * 100.0 else 0.0
  {
    var w := WalkDrawdown(sorted);
    assert Balance(sorted, 0) - Balance(sorted, 0) <= w.maxAmount;
    forall peak | IsPeak(sorted, peak)
      ensures peak == w.peak
    {
      PeakUnique(sorted, peak, w.peak);
    }
    var pct := if w.peak > 0.0 then w.maxAmount / w.peak * 100.0 else 0.0;
    DrawdownFigures(pct, w.maxAmount)
  }

  /** `_calculate_drawdown`: the figures of the walk over the closed trades
      in close-time order; no closed trades give zero. */
  function MaxDrawdown(closed: seq<Trade>): (r: DrawdownFigures)
    ensures r.amount >= 0.0 && r.pct >= 0.0
    ensures |closed| == 0 ==> r == DrawdownFigures(0.0, 0.0)
    ensures IsDeepestFall(ByCloseTime(closed), r.amount)
    ensures forall peak :: IsPeak(ByCloseTime(closed), peak) ==>
      r.pct == if peak > 0.0 then r.amount / peak * 100.0 else 0.0
  {
    if |closed| == 0 then
      var sorted := ByCloseTime(closed);
      assert Balance(sorted, 0) == 0.0;
      assert IsDeepestFall(sorted, 0.0) by {
        assert Balance(sorted, 0) - Balance(sorted, 0) == 0.0;
      }
      forall peak | IsPeak(sorted, peak)
        ensures peak == 0.0
      {
        var j :| 0 <= j <= |sorted| && Balance(sorted, j) == peak;
      }
      DrawdownFigures(0.0, 0.0)
    else DrawdownOf(ByCloseTime(closed))
  }

  // ---------------------------------------------------------------------
  // Consecutive wins and losses

  /** Positions `i..j-1` of `s` all satisfy `p`. */
  predicate RunOf(s: seq<Trade>, i: int, j: int, p: Trade -> bool) {
    0 <= i <= j <= |s| && forall k :: i <= k < j ==> p(s[k])
  }

  /** A run of length `len` starting at `i`. */
  predicate RunAt(s: seq<Trade>, i: int, len: nat, p: Trade -> bool) {
    RunOf(s, i, i + len, p)
  }

  /** `len` is the length of the longest run of trades satisfying `p`. */
  predicate LongestRun(s: seq<Trade>, p: Trade -> bool, len: nat) {
    && (forall i, j :: 0 <= i <= j <= |s| && RunOf(s, i, j, p) ==> j - i <= len)
    && (exists i :: 0 <= i <= |s| && RunAt(s, i, len, p))
  }

  /** `len` is the length of the longest run that reaches the end of `s`. */
  predicate TrailingRun(s: seq<Trade>, p: Trade -> bool, len: nat) {
    && len <= |s|
    && RunOf(s, |s| - len, |s|, p)
    && (forall i :: 0 <= i <= |s| && RunOf(s, i, |s|, p) ==> |s| - i <= len)
  }

  datatype Streaks = Streaks(currentWins: nat, currentLosses: nat, maxWins: nat, maxLosses: nat)

  /** The loop of `_calculate_consecutive`.  The current counters are the
      lengths of the trailing runs of wins and of losses; the maxima are the
      lengths of the longest runs anywhere. */
  function WalkStreaks(s: seq<Trade>): (st: Streaks)
    ensures TrailingRun(s, IsWin, st.currentWins) && TrailingRun(s, IsLoss, st.currentLosses)
    ensures LongestRun(s, IsWin, st.maxWins) && LongestRun(s, IsLoss, st.maxLosses)
  {
    if |s| == 0 then
      assert RunAt(s, 0, 0, IsWin) && RunAt(s, 0, 0, IsLoss);
      Streaks(0, 0, 0, 0)
    else
      var init := s[..|s| - 1];
      var st := WalkStreaks(init);
      var t := s[|s| - 1];
      var r :=
        if t.profit > 0.0 then
          Streaks(st.currentWins + 1, 0, MaxNat(st.maxWins, st.currentWins + 1), st.maxLosses)
        else if t.profit < 0.0 then
          Streaks(0, st.currentLosses + 1, st.maxWins, MaxNat(st.maxLosses, st.currentLosses + 1))
        else
          Streaks(0, 0, st.maxWins, st.maxLosses);
      RunStep(s, init, IsWin, st.currentWins, st.maxWins, r.currentWins, r.maxWins);
      RunStep(s, init, IsLoss, st.currentLosses, st.maxLosses, r.currentLosses, r.maxLosses);
      r
  }

  /** The run bookkeeping for one predicate: a trade satisfying `p` extends
      the trailing run, any other trade ends it. */
  lemma RunStep(s: seq<Trade>, init: seq<Trade>, p: Trade -> bool, cur: nat, best: nat, cur': nat, best': nat)
    requires |s| > 0 && init == s[..|s| - 1]
    requires TrailingRun(init, p, cur) && LongestRun(init, p, best)
    requires p(s[|s| - 1]) ==> cur' == cur + 1 && best' == MaxNat(best, cur + 1)
    requires !p(s[|s| - 1]) ==> cur' == 0 && best' == best
    ensures TrailingRun(s, p, cur') && LongestRun(s, p, best')
  {
    var n := |s|;
    forall i, j | RunOf(init, i, j, p)
      ensures RunOf(s, i, j, p)
    {
      assert forall k :: i <= k < j ==> s[k] == init[k];
    }
    forall i, j | RunOf(s, i, j, p) && j < n
      ensures RunOf(init, i, j, p)
    {
      assert forall k :: i <= k < j ==> s[k] == init[k];
    }
    var i0 :| 0 <= i0 <= n - 1 && RunAt(init, i0, best, p);
    assert RunAt(s, i0, best, p);
    if p(s[n - 1]) {
      assert RunOf(init, n - 1 - cur, n - 1, p);
      assert RunOf(s, n - cur', n, p);
      forall i | RunOf(s, i, n, p)
        ensures n - i <= cur'
      {
        if i < n {
          assert RunOf(init, i, n - 1, p);
        }
      }
      forall i, j | RunOf(s, i, j, p)
        ensures j - i <= best'
      {
        if j == n && i < n {
          assert RunOf(init, i, n - 1, p);
        }
      }
      if best' != best {
        assert RunAt(s, n - cur', best', p);
      }
    } else {
      assert RunOf(s, n, n, p);
      forall i | 0 <= i < n
        ensures !RunOf(s, i, n, p)
      {
        assert !p(s[n - 1]);
      }
    }
  }

  /** The longest-run length of a list is determined by the list. */
  lemma LongestRunUnique(s: seq<Trade>, p: Trade -> bool, a: nat, b: nat)
    requires LongestRun(s, p, a) && LongestRun(s, p, b)
    ensures a == b
  {
    var i :| 0 <= i <= |s| && RunAt(s, i, a, p);
    var j :| 0 <= j <= |s| && RunAt(s, j, b, p);
    assert RunOf(s, i, i + a, p) && RunOf(s, j, j + b, p);
  }

  /** No run is longer than the number of trades satisfying `p`. */
  lemma {:induction false} RunBoundedByCount(s: seq<Trade>, p: Trade -> bool, i: int, j: int)
    requires RunOf(s, i, j, p)
    ensures j - i <= |Filter(s, p)|
    decreases |s|
  {
    if |s| > 0 && i < j {
      var init := s[..|s| - 1];
      if j == |s| {
        if i < j - 1 {
          assert RunOf(init, i, j - 1, p) by {
            assert forall k :: i <= k < j - 1 ==> s[k] == init[k];
          }
          RunBoundedByCount(init, p, i, j - 1);
        }
      } else {
        assert RunOf(init, i, j, p) by {
          assert forall k :: i <= k < j ==> s[k] == init[k];
        }
        RunBoundedByCount(init, p, i, j);
      }
    }
  }

  /** `_calculate_consecutive`, on the closed trades in close-time order. */
  function Consecutive(closed: seq<Trade>): (r: (nat, nat))
    ensures LongestRun(ByCloseTime(closed), IsWin, r.0)
    ensures LongestRun(ByCloseTime(closed), IsLoss, r.1)
    ensures r.0 <= |Filter(closed, IsWin)| && r.1 <= |Filter(closed, IsLoss)|
    ensures |closed| == 0 ==> r == (0, 0)
  {
    var sorted := ByCloseTime(closed);
    var st := WalkStreaks(sorted);
    var iw :| 0 <= iw <= |sorted| && RunAt(sorted, iw, st.maxWins, IsWin);
    RunBoundedByCount(sorted, IsWin, iw, iw + st.maxWins);
    var il :| 0 <= il <= |sorted| && RunAt(sorted, il, st.maxLosses, IsLoss);
    RunBoundedByCount(sorted, IsLoss, il, il + st.maxLosses);
    SameMultisetSameCount(sorted, closed, IsWin);
    SameMultisetSameCount(sorted, closed, IsLoss);
    (st.maxWins, st.maxLosses)
  }

  /** Reordering a list does not change how many of its elements satisfy `p`. */
  lemma {:induction false} SameMultisetSameCount(a: seq<Trade>, b: seq<Trade>, p: Trade -> bool)
    requires multiset(a) == multiset(b)
    ensures |Filter(a, p)| == |Filter(b, p)|
    decreases |a|
  {
    if |a| > 0 {
      var x := a[|a| - 1];
      assert a == a[..|a| - 1] + [x];
      assert x in multiset(b);
      var k :| 0 <= k < |b| && b[k] == x;
      var b' := b[..k] + b[k + 1..];
      assert b == b[..k] + [x] + b[k + 1..];
      assert multiset(b') == multiset(b) - multiset{x};
      assert multiset(a[..|a| - 1]) == multiset(b');
      SameMultisetSameCount(a[..|a| - 1], b', p);
      FilterRemoveAt(b, k, p);
    }
  }

  /** Removing position `k` removes one match exactly when `b[k]` matched. */
  lemma FilterRemoveAt(b: seq<Trade>, k: int, p: Trade -> bool)
    requires 0 <= k < |b|
    ensures |Filter(b, p)| == |Filter(b[..k] + b[k + 1..], p)| + (if p(b[k]) then 1 else 0)
  {
    FilterAppend(b[..k], [b[k]] + b[k + 1..], p);
    FilterAppend([b[k]], b[k + 1..], p);
    FilterAppend(b[..k], b[k + 1..], p);
    assert b == b[..k] + ([b[k]] + b[k + 1..]);
    assert Filter([b[k]], p) == Filter([], p) + (if p(b[k]) then [b[k]] else []) by {
      assert [b[k]][..0] == [];
    }
  }

  lemma {:induction false} FilterAppend(a: seq<Trade>, b: seq<Trade>, p: Trade -> bool)
    ensures Filter(a + b, p) == Filter(a, p) + Filter(b, p)
    decreases |b|
  {
    if |b| == 0 {
      assert a + b == a;
    } else {
      assert (a + b)[..|a + b| - 1] == a + b[..|b| - 1];
      FilterAppend(a, b[..|b| - 1], p);
    }
  }

  /** A breakeven trade ends every win run and every loss run: the longest
      runs of the whole list are the longer of those before it and after it,
      and both current counters read zero right after it. */
  lemma BreakevenSplitsStreaks(s: seq<Trade>, k: int)
    requires 0 <= k < |s| && IsBreakeven(s[k])
    ensures WalkStreaks(s).maxWins == MaxNat(WalkStreaks(s[..k]).maxWins, WalkStreaks(s[k + 1..]).maxWins)
    ensures WalkStreaks(s).maxLosses == MaxNat(WalkStreaks(s[..k]).maxLosses, WalkStreaks(s[k + 1..]).maxLosses)
    ensures WalkStreaks(s[..k + 1]).currentWins == 0 && WalkStreaks(s[..k + 1]).currentLosses == 0
  {
    RunsSplit(s, k, IsWin, WalkStreaks(s).maxWins, WalkStreaks(s[..k]).maxWins, WalkStreaks(s[k + 1..]).maxWins);
    RunsSplit(s, k, IsLoss, WalkStreaks(s).maxLosses, WalkStreaks(s[..k]).maxLosses, WalkStreaks(s[k + 1..]).maxLosses);
    var pre := s[..k + 1];
    assert pre[k] == s[k];
    var tw := WalkStreaks(pre).currentWins;
    assert RunOf(pre, |pre| - tw, |pre|, IsWin);
    var tl := WalkStreaks(pre).currentLosses;
    assert RunOf(pre, |pre| - tl, |pre|, IsLoss);
  }

  /** Longest-run lengths split at a position whose trade fails `p`. */
  lemma RunsSplit(s: seq<Trade>, k: int, p: Trade -> bool, m: nat, a: nat, b: nat)
    requires 0 <= k < |s| && !p(s[k])
    requires LongestRun(s, p, m)
    requires LongestRun(s[..k], p, a)
    requires LongestRun(s[k + 1..], p, b)
    ensures m == MaxNat(a, b)
  {
    var pre, post := s[..k], s[k + 1..];
    var ia :| 0 <= ia <= |pre| && RunAt(pre, ia, a, p);
    assert RunOf(s, ia, ia + a, p) by {
      assert forall x :: ia <= x < ia + a ==> s[x] == pre[x];
    }
    var ib :| 0 <= ib <= |post| && RunAt(post, ib, b, p);
    assert RunOf(s, k + 1 + ib, k + 1 + ib + b, p) by {
      assert forall x :: k + 1 + ib <= x < k + 1 + ib + b ==> s[x] == post[x - k - 1];
    }
    var im :| 0 <= im <= |s| && RunAt(s, im, m, p);
    if im + m <= k {
      assert RunOf(pre, im, im + m, p) by {
        assert forall x :: im <= x < im + m ==> pre[x] == s[x];
      }
    } else {
      assert im > k by {
        assert !p(s[k]);
      }
      assert RunOf(post, im - k - 1, im - k - 1 + m, p) by {
        assert forall x :: im - k - 1 <= x < im - k - 1 + m ==> post[x] == s[x + k + 1];
      }
    }
  }

  // ---------------------------------------------------------------------
  // Profit per trading day and per symbol

  /** Some trade of `s` closed on date `x`. */
  predicate ClosesOn(s: seq<Trade>, x: int) {
    exists i :: 0 <= i < |s| && Date(CloseKey(s[i])) == x
  }

  /** The distinct calendar dates on which the trades closed. */
  function TradingDays(s: seq<Trade>): (d: set<int>)
    ensures forall x :: x in d <==> ClosesOn(s, x)
    ensures |d| <= |s|
    ensures |s| > 0 ==> |d| >= 1
  {
    if |s| == 0 then {}
    else
      var init, last := s[..|s| - 1], s[|s| - 1];
      var d := TradingDays(init) + {Date(CloseKey(last))};
      forall x
        ensures x in d <==> ClosesOn(s, x)
      {
        if ClosesOn(init, x) {
          var i :| 0 <= i < |init| && Date(CloseKey(init[i])) == x;
          assert s[i] == init[i];
        }
        if ClosesOn(s, x) && x != Date(CloseKey(last)) {
          var i :| 0 <= i < |s| && Date(CloseKey(s[i])) == x;
          assert init[i] == s[i];
        }
      }
      d
  }

  /** `_calculate_profit_per_day`: net profit shared equally over the
      distinct close dates. */
  function ProfitPerDay(closed: seq<Trade>): (r: real)
    ensures |closed| == 0 ==> r == 0.0
    ensures MeanOf(r, SumProfit(closed), |TradingDays(closed)|)
  {
    if |closed| == 0 then 0.0
    else Average(SumProfit(closed), |TradingDays(closed)|)
  }

  datatype SymbolProfit = SymbolProfit(symbol: string, profit: real)

  function SymbolKey(t: Trade): Option<string> {
    Some(t.symbol)
  }

  function SumSymbolProfits(table: seq<SymbolProfit>): real {
    if |table| == 0 then 0.0 else table[0].profit + SumSymbolProfits(table[1..])
  }

  /** Keeps only the summed profit of each symbol bucket, in the same order. */
  function ProfitColumn(es: seq<Buckets.Entry<string>>): (r: seq<SymbolProfit>)
    ensures |r| == |es|
    ensures forall i :: 0 <= i < |es| ==> r[i] == SymbolProfit(es[i].key, es[i].bucket.pnl)
    ensures SumSymbolProfits(r) == Buckets.SumPnl(es)
  {
    if |es| == 0 then []
    else
      var r := [SymbolProfit(es[0].key, es[0].bucket.pnl)] + ProfitColumn(es[1..]);
      assert r[1..] == ProfitColumn(es[1..]);
      r
  }

  /** The symbol column keeps the first-seen order of its buckets. */
  lemma SymbolsFirstSeen(closed: seq<Trade>, g: seq<Buckets.Entry<string>>)
    requires g == Buckets.Group(closed, SymbolKey)
    ensures forall i, j :: 0 <= i < j < |ProfitColumn(g)| ==>
      Buckets.FirstSeen(closed, SymbolKey, ProfitColumn(g)[i].symbol) < Buckets.FirstSeen(closed, SymbolKey, ProfitColumn(g)[j].symbol)
  {
    Buckets.GroupFirstSeen(closed, SymbolKey);
  }

  /** `_calculate_profit_by_symbol`: one row per traded symbol, in the order
      the symbols first appear; each row is the total of that symbol's
      trades, and the rows add up to the net profit. */
  function ProfitBySymbol(closed: seq<Trade>): (r: seq<SymbolProfit>)
    ensures forall i, j :: 0 <= i < j < |r| ==> r[i].symbol != r[j].symbol
    ensures forall i :: 0 <= i < |r| ==> Buckets.Tally(closed, SymbolKey, r[i].symbol).count > 0
    ensures forall i, j :: 0 <= i < j < |r| ==>
      Buckets.FirstSeen(closed, SymbolKey, r[i].symbol) < Buckets.FirstSeen(closed, SymbolKey, r[j].symbol)
    ensures forall i :: 0 <= i < |r| ==> r[i].profit == Buckets.Tally(closed, SymbolKey, r[i].symbol).pnl
    ensures forall i :: 0 <= i < |closed| ==> exists j :: 0 <= j < |r| && r[j].symbol == closed[i].symbol
    ensures SumSymbolProfits(r) == SumProfit(closed)
  {
    var g := Buckets.Group(closed, SymbolKey);
    Buckets.KeyedTotals(closed, SymbolKey);
    var r := ProfitColumn(g);
    SymbolsFirstSeen(closed, g);
    forall i | 0 <= i < |r|
      ensures r[i].profit == Buckets.Tally(closed, SymbolKey, r[i].symbol).pnl
      ensures Buckets.Tally(closed, SymbolKey, r[i].symbol).count > 0
    {
      Buckets.GroupIsTally(closed, SymbolKey, g[i].key);
    }
    forall i | 0 <= i < |closed|
      ensures exists j :: 0 <= j < |r| && r[j].symbol == closed[i].symbol
    {
      Buckets.TallyOfMember(closed, SymbolKey, i);
      Buckets.GroupIsTally(closed, SymbolKey, closed[i].symbol);
      var j :| 0 <= j < |g| && g[j].key == closed[i].symbol;
      assert r[j].symbol == closed[i].symbol;
    }
    r
  }

  // ---------------------------------------------------------------------
  // Average durations

  /** Summed `close_time - open_time` in seconds. */
  function SumDurations(s: seq<Trade>): int {
    if |s| == 0 then 0 else SumDurations(s[..|s| - 1]) + (CloseKey(s[|s| - 1]) - s[|s| - 1].openTime)
  }

  /** `statistics.mean` of the durations, or 0 for no trades. */
  function AverageDuration(s: seq<Trade>): (r: real)
    ensures |s| == 0 ==> r == 0.0
    ensures MeanOf(r, SumDurations(s) as real, |s|)
  {
    Average(SumDurations(s) as real, |s|)
  }

  // ---------------------------------------------------------------------
  // The snapshot

  /** The trade lists kept by `__init__`, each in input order: closed and
      open trades, and the closed trades split by the sign of their profit. */
  datatype Partition = Partition(
    closed: seq<Trade>,
    open: seq<Trade>,
    wins: seq<Trade>,
    losses: seq<Trade>,
    breakevens: seq<Trade>)

  /** Every trade lands in exactly one of closed/open and every closed trade
      in exactly one of wins/losses/breakevens, so counts and profit sums add
      up; wins sum to a positive gross profit, losses to a negative one. */
  function PartitionOf(trades: seq<Trade>): (p: Partition)
    ensures |p.closed| + |p.open| == |trades|
    ensures |p.wins| + |p.losses| + |p.breakevens| == |p.closed|
    ensures SumProfit(p.wins) + SumProfit(p.losses) + SumProfit(p.breakevens) == SumProfit(p.closed)
    ensures forall i :: 0 <= i < |p.closed| ==> IsClosed(p.closed[i])
    ensures forall i :: 0 <= i < |p.open| ==> IsOpen(p.open[i])
    ensures forall i :: 0 <= i < |p.wins| ==> IsWin(p.wins[i])
    ensures forall i :: 0 <= i < |p.losses| ==> IsLoss(p.losses[i])
    ensures forall i :: 0 <= i < |p.breakevens| ==> IsBreakeven(p.breakevens[i])
    ensures SumProfit(p.wins) >= 0.0 && SumProfit(p.breakevens) == 0.0
    ensures |p.wins| == 0 <==> SumProfit(p.wins) == 0.0
    ensures |p.losses| == 0 <==> SumProfit(p.losses) == 0.0
    ensures SumProfit(p.losses) <= 0.0
  {
    var closed := Closed(trades);
    var p := Partition(
      closed, Filter(trades, IsOpen),
      Filter(closed, IsWin), Filter(closed, IsLoss), Filter(closed, IsBreakeven));
    FilterSplit(trades, IsClosed, IsOpen);
    FilterSplit3(closed, IsWin, IsLoss, IsBreakeven);
    SumProfitSign(p.breakevens);
    SignedSumZeroIffEmpty(p.wins, true);
    SignedSumZeroIffEmpty(p.losses, false);
    p
  }

  /** Trades that all won (or all lost) sum to zero only when there are none. */
  lemma {:induction false} SignedSumZeroIffEmpty(s: seq<Trade>, winners: bool)
    requires winners ==> forall i :: 0 <= i < |s| ==> IsWin(s[i])
    requires !winners ==> forall i :: 0 <= i < |s| ==> IsLoss(s[i])
    ensures SumProfit(s) == 0.0 <==> |s| == 0
    ensures winners ==> SumProfit(s) >= 0.0
    ensures !winners ==> SumProfit(s) <= 0.0
  {
    if |s| > 0 {
      SignedSumZeroIffEmpty(s[..|s| - 1], winners);
    }
  }

  datatype StatsResult = StatsResult(
    totalTrades: nat,
    closedTrades: nat,
    winTrades: nat,
    lossTrades: nat,
    breakevenTrades: nat,
    openTrades: nat,
    winRate: real,
    profitFactor: Ext,
    totalNetProfit: real,
    totalGrossProfit: real,
    totalGrossLoss: real,
    avgWin: real,
    avgLoss: real,
    avgTrade: real,
    expectancy: real,
    maxDrawdown: real,
    maxDrawdownAmount: real,
    maxConsecutiveWins: nat,
    maxConsecutiveLosses: nat,
    largestWin: real,
    largestLoss: real,
    profitPerDay: real,
    profitBySymbol: seq<SymbolProfit>,
    avgTradeDuration: real,
    avgWinDuration: real,
    avgLossDuration: real
  )

  /** The ratio block of `_calculate_stats`, from the counts and sums. */
  datatype Ratios = Ratios(
    winRate: real,
    profitFactor: Ext,
    avgWin: real,
    avgLoss: real,
    avgTrade: real,
    expectancy: real)

  /** Win rate, profit factor, averages and expectancy.  Expectancy weighs
      the average loss by `1 - win_rate`, which counts breakeven trades as
      losing ones: it never exceeds the average trade, and equals it when
      there are no breakeven trades or no losses. */
  function RatiosOf(wins: nat, losses: nat, closed: nat, grossProfit: real, grossLoss: real, netProfit: real): (q: Ratios)
    requires wins + losses <= closed
    ensures 0.0 <= q.winRate <= 1.0
    ensures closed == 0 ==> q.winRate == 0.0 && q.avgTrade == 0.0
    ensures MeanOf(q.winRate, wins as real, closed)
    ensures grossLoss != 0.0 ==> q.profitFactor.Finite? && QuotientOf(q.profitFactor.value, grossProfit, grossLoss)
    ensures grossLoss == 0.0 ==> q.profitFactor == Unbounded
    ensures MeanOf(q.avgWin, grossProfit, wins)
    ensures MeanOf(q.avgLoss, grossLoss, losses)
    ensures MeanOf(q.avgTrade, netProfit, closed)
    ensures q.expectancy == Expectancy(q.winRate, q.avgWin, q.avgLoss)
    ensures grossProfit >= 0.0 ==> q.avgWin >= 0.0
    ensures grossLoss >= 0.0 ==> q.avgLoss >= 0.0
    ensures
      && closed > 0 && grossProfit >= 0.0 && grossLoss >= 0.0 && netProfit == grossProfit - grossLoss
      && (wins == 0 ==> grossProfit == 0.0) && (losses == 0 ==> grossLoss == 0.0)
      ==>
      && q.expectancy <= q.avgTrade
      && (wins + losses == closed || losses == 0 ==> q.expectancy == q.avgTrade)
  {
    var winRate := WinRate(wins, closed);
    var avgWin := Average(grossProfit, wins);
    var avgLoss := Average(grossLoss, losses);
    var avgTrade := Average(netProfit, closed);
    var expectancy := Expectancy(winRate, avgWin, avgLoss);
    ExpectancyBound(wins, losses, closed, grossProfit, grossLoss);
    Ratios(winRate, ProfitFactor(grossProfit, grossLoss), avgWin, avgLoss, avgTrade, expectancy)
  }

  /** `win_rate * avg_win - (1 - win_rate) * avg_loss`. */
  function Expectancy(winRate: real, avgWin: real, avgLoss: real): real {
    winRate * avgWin - (1.0 - winRate) * avgLoss
  }

  /** Expectancy against average trade, for the figures `RatiosOf` computes. */
  lemma ExpectancyBound(wins: nat, losses: nat, closed: nat, grossProfit: real, grossLoss: real)
    requires wins + losses <= closed
    ensures
      && closed > 0 && grossProfit >= 0.0 && grossLoss >= 0.0
      && (wins == 0 ==> grossProfit == 0.0) && (losses == 0 ==> grossLoss == 0.0)
      ==>
      var winRate := WinRate(wins, closed);
      var expectancy := winRate * Average(grossProfit, wins) - (1.0 - winRate) * Average(grossLoss, losses);
      && expectancy <= Average(grossProfit - grossLoss, closed)
      && (wins + losses == closed || losses == 0 ==> expectancy == Average(grossProfit - grossLoss, closed))
  {
    if closed > 0 && grossProfit >= 0.0 && grossLoss >= 0.0
       && (wins == 0 ==> grossProfit == 0.0) && (losses == 0 ==> grossLoss == 0.0)
    {
      var winRate := WinRate(wins, closed);
      ExpectancyArithmetic(closed as real, wins as real, losses as real,
        grossProfit, grossLoss, winRate, Average(grossProfit, wins), Average(grossLoss, losses));
      assert Average(grossProfit - grossLoss, closed) == (grossProfit - grossLoss) / (closed as real);
    }
  }

  /** The arithmetic behind the expectancy comparison: breakeven trades
      weigh on the loss side of `1 - win_rate` without adding any loss. */
  lemma ExpectancyArithmetic(c: real, w: real, l: real, gp: real, gl: real,
                             winRate: real, avgWin: real, avgLoss: real)
    requires c > 0.0 && w >= 0.0 && l >= 0.0 && w + l <= c
    requires gp >= 0.0 && gl >= 0.0
    requires winRate * c == w
    requires w > 0.0 ==> avgWin * w == gp
    requires w == 0.0 ==> gp == 0.0 && avgWin == 0.0
    requires l > 0.0 ==> avgLoss * l == gl
    requires l == 0.0 ==> gl == 0.0 && avgLoss == 0.0
    ensures winRate * avgWin - (1.0 - winRate) * avgLoss <= (gp - gl) / c
    ensures w + l == c || l == 0.0 ==> winRate * avgWin - (1.0 - winRate) * avgLoss == (gp - gl) / c
  {
    assert winRate * avgWin * c == gp;
    assert (1.0 - winRate) * avgLoss * c == (c - w) * avgLoss;
    if l > 0.0 {
      assert (c - w) * avgLoss >= l * avgLoss;
    }
    assert (winRate * avgWin - (1.0 - winRate) * avgLoss) * c <= gp - gl;
  }

  /** The partition's lists are the source's list comprehensions. */
  lemma PartitionFilters(trades: seq<Trade>)
    ensures PartitionOf(trades).closed == Closed(trades)
    ensures PartitionOf(trades).wins == Filter(Closed(trades), IsWin)
    ensures PartitionOf(trades).losses == Filter(Closed(trades), IsLoss)
  {
  }

  /** The fields of `get_stats()`, assembled from the partition of the
      journal and the walks over its closed trades. */
  function Assemble(trades: seq<Trade>): StatsResult {
    var p := PartitionOf(trades);
    var grossProfit := SumProfit(p.wins);
    var grossLoss := Abs(SumProfit(p.losses));
    var q := RatiosOf(|p.wins|, |p.losses|, |p.closed|, grossProfit, grossLoss, SumProfit(p.closed));
    var drawdown := MaxDrawdown(p.closed);
    var streaks := Consecutive(p.closed);
    StatsResult(
      |trades|, |p.closed|, |p.wins|, |p.losses|, |p.breakevens|, |p.open|,
      q.winRate, q.profitFactor,
      SumProfit(p.closed), grossProfit, grossLoss,
      q.avgWin, q.avgLoss, q.avgTrade, q.expectancy,
      drawdown.pct, drawdown.amount, streaks.0, streaks.1,
      LargestProfit(p.wins), SmallestProfit(p.losses),
      ProfitPerDay(p.closed), ProfitBySymbol(p.closed),
      AverageDuration(p.closed), AverageDuration(p.wins), AverageDuration(p.losses))
  }

  /** The counts and sums of a report are those of the closed, winning
      and losing trades of the journal. */
  predicate CountsMatch(trades: seq<Trade>, r: StatsResult) {
    && r.totalTrades == |trades|
    && r.closedTrades + r.openTrades == r.totalTrades
    && r.winTrades + r.lossTrades + r.breakevenTrades == r.closedTrades
    && r.closedTrades == |Closed(trades)|
    && r.winTrades == |Filter(Closed(trades), IsWin)| && r.lossTrades == |Filter(Closed(trades), IsLoss)|
    && r.totalGrossProfit == SumProfit(Filter(Closed(trades), IsWin))
    && r.totalGrossLoss == -SumProfit(Filter(Closed(trades), IsLoss))
    && r.totalGrossProfit >= 0.0 && r.totalGrossLoss >= 0.0
    && r.totalNetProfit == r.totalGrossProfit - r.totalGrossLoss
    && (r.lossTrades == 0 <==> r.totalGrossLoss == 0.0)
    && SumSymbolProfits(r.profitBySymbol) == r.totalNetProfit
  }

  /** The rate, the averages, the profit factor and the expectancy of a
      report, in terms of its counts and sums. */
  predicate RatiosMatch(r: StatsResult) {
    && (r.lossTrades == 0 <==> r.profitFactor == Unbounded)
    && (r.lossTrades > 0 ==> r.profitFactor.Finite? && QuotientOf(r.profitFactor.value, r.totalGrossProfit, r.totalGrossLoss))
    && MeanOf(r.winRate, r.winTrades as real, r.closedTrades)
    && MeanOf(r.avgWin, r.totalGrossProfit, r.winTrades) && MeanOf(r.avgLoss, r.totalGrossLoss, r.lossTrades)
    && MeanOf(r.avgTrade, r.totalNetProfit, r.closedTrades)
    && r.expectancy == Expectancy(r.winRate, r.avgWin, r.avgLoss)
    && (r.closedTrades > 0 ==> r.expectancy <= r.avgTrade)
    && 0.0 <= r.winRate <= 1.0 && r.avgWin >= 0.0 && r.avgLoss >= 0.0
  }

  /** The extremes, the drawdown and the streaks of a report come from the
      journal's closed trades in close-time order. */
  predicate WalksMatch(trades: seq<Trade>, r: StatsResult) {
    && r.largestWin >= 0.0 && r.largestLoss <= 0.0
    && IsDeepestFall(ByCloseTime(Closed(trades)), r.maxDrawdownAmount)
    && LongestRun(ByCloseTime(Closed(trades)), IsWin, r.maxConsecutiveWins)
    && LongestRun(ByCloseTime(Closed(trades)), IsLoss, r.maxConsecutiveLosses)
    && r.maxConsecutiveWins <= r.winTrades && r.maxConsecutiveLosses <= r.lossTrades
    && (r.closedTrades == 0 ==> r.maxDrawdownAmount == 0.0 && r.maxConsecutiveWins == 0 && r.maxConsecutiveLosses == 0)
  }

  /** The remaining figures of a report: the extremes, the drawdown
      percentage, the daily and per-symbol profit and the mean holding
      times are those of the journal's closed, winning and losing trades. */
  predicate FiguresMatch(trades: seq<Trade>, r: StatsResult) {
    && r.largestWin == LargestProfit(Filter(Closed(trades), IsWin))
    && r.largestLoss == SmallestProfit(Filter(Closed(trades), IsLoss))
    && r.maxDrawdown == MaxDrawdown(Closed(trades)).pct
    && r.maxDrawdownAmount == MaxDrawdown(Closed(trades)).amount
    && r.profitPerDay == ProfitPerDay(Closed(trades))
    && r.profitBySymbol == ProfitBySymbol(Closed(trades))
    && r.avgTradeDuration == AverageDuration(Closed(trades))
    && r.avgWinDuration == AverageDuration(Filter(Closed(trades), IsWin))
    && r.avgLossDuration == AverageDuration(Filter(Closed(trades), IsLoss))
  }

  lemma AssembleFigures(trades: seq<Trade>)
    ensures FiguresMatch(trades, Assemble(trades))
  {
    PartitionFilters(trades);
  }

  lemma AssembleCounts(trades: seq<Trade>)
    ensures CountsMatch(trades, Assemble(trades))
  {
    PartitionFilters(trades);
  }

  lemma AssembleRatios(trades: seq<Trade>)
    ensures RatiosMatch(Assemble(trades))
  {
    AssembleCounts(trades);
    var p := PartitionOf(trades);
    var grossProfit := SumProfit(p.wins);
    var grossLoss := Abs(SumProfit(p.losses));
    var q := RatiosOf(|p.wins|, |p.losses|, |p.closed|, grossProfit, grossLoss, SumProfit(p.closed));
    var r := Assemble(trades);
    assert r.winRate == q.winRate && r.profitFactor == q.profitFactor && r.expectancy == q.expectancy;
    assert r.avgWin == q.avgWin && r.avgLoss == q.avgLoss && r.avgTrade == q.avgTrade;
    assert r.winTrades == |p.wins| && r.lossTrades == |p.losses| && r.closedTrades == |p.closed|;
    assert r.totalGrossProfit == grossProfit && r.totalGrossLoss == grossLoss && r.totalNetProfit == SumProfit(p.closed);
    assert (r.lossTrades == 0 <==> r.profitFactor == Unbounded);
    assert (r.lossTrades > 0 ==> r.profitFactor.Finite? && QuotientOf(r.profitFactor.value, r.totalGrossProfit, r.totalGrossLoss));
    assert MeanOf(r.winRate, r.winTrades as real, r.closedTrades);
    assert MeanOf(r.avgWin, r.totalGrossProfit, r.winTrades) && MeanOf(r.avgLoss, r.totalGrossLoss, r.lossTrades);
    assert MeanOf(r.avgTrade, r.totalNetProfit, r.closedTrades);
    assert r.expectancy == Expectancy(r.winRate, r.avgWin, r.avgLoss);
    assert (r.closedTrades > 0 ==> r.expectancy <= r.avgTrade);
    assert 0.0 <= r.winRate <= 1.0 && r.avgWin >= 0.0 && r.avgLoss >= 0.0;
  }

  lemma AssembleWalks(trades: seq<Trade>)
    ensures WalksMatch(trades, Assemble(trades))
  {
    AssembleCounts(trades);
    var p := PartitionOf(trades);
    PartitionFilters(trades);
    var largestLoss := SmallestProfit(p.losses);
    assert |p.losses| > 0 ==> largestLoss < 0.0 by {
      if |p.losses| > 0 {
        var i :| 0 <= i < |p.losses| && p.losses[i].profit == largestLoss;
      }
    }
  }

  /** `BasicStats(trades).get_stats()`: counts and sums of the closed,
      winning and losing trades, the ratios built from them, and the
      drawdown and streaks of the closed trades in close-time order, and the
      extremes, daily and per-symbol profit and holding times.  With
      no closed trade every ratio is zero and the profit factor infinite. */
  function Compute(trades: seq<Trade>): (r: StatsResult)
    ensures CountsMatch(trades, r)
    ensures RatiosMatch(r)
    ensures WalksMatch(trades, r)
    ensures FiguresMatch(trades, r)
    ensures r.closedTrades == 0 ==> r.winRate == 0.0 && r.totalNetProfit == 0.0 && r.profitFactor == Unbounded
  {
    AssembleCounts(trades);
    AssembleRatios(trades);
    AssembleWalks(trades);
    AssembleFigures(trades);
    Assemble(trades)
  }
}
