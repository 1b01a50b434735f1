/** The drawdown analyzer (src/analyzers/drawdown.py): the equity curve of
    the closed trades in close-time order, the drawdown periods found by one
    walk over that curve, and the summary figures built from them. */
module Drawdown {
  import opened Wrappers
  import opened Calendar
  import opened StableSort
  import opened Trades
  import BasicStats

  /** Account size assumed when the caller gives none. */
  const DefaultInitialBalance: real := 10000.0

  /** The curve opens one minute before the first close. */
  const LeadIn: int := 60

  datatype EquityPoint = EquityPoint(time: Timestamp, balance: real)

  /** One drawdown: it starts at the time of the peak it falls from, and is
      either recovered (`end` and `recovery` both hold the time the balance
      rose above the peak) or still open (both absent). */
  datatype Period = Period(
    start: Timestamp,
    end: Option<Timestamp>,
    peak: real,
    trough: real,
    depth: real,
    depthPct: real,
    duration: int,
    recovery: Option<Timestamp>)

  // ---------------------------------------------------------------------
  // Equity curve

  /** The point after each trade: its close time and the balance so far. */
  function RunningPoints(s: seq<Trade>, initial: real): (c: seq<EquityPoint>)
    ensures |c| == |s|
    ensures forall i :: 0 <= i < |s| ==> c[i].time == CloseKey(s[i])
    ensures forall i :: 0 <= i < |s| ==> c[i].balance == initial + BasicStats.Balance(s, i + 1)
  {
    if |s| == 0 then []
    else
      var init := s[..|s| - 1];
      var c := RunningPoints(init, initial) + [EquityPoint(CloseKey(s[|s| - 1]), initial + SumProfit(s))];
      assert forall k :: 0 <= k <= |init| ==> BasicStats.Balance(s, k) == BasicStats.Balance(init, k) by {
        forall k | 0 <= k <= |init|
          ensures BasicStats.Balance(s, k) == BasicStats.Balance(init, k)
        {
          assert s[..k] == init[..k];
        }
      }
      assert s[..|s|] == s;
      c
  }

  /** `_calculate_equity_curve`: no points for no trades; otherwise a start
      point one minute before the first close at the initial balance, then
      one point per trade.  Point `i` carries the initial balance plus the
      profit of the first `i` trades. */
  function EquityCurve(sorted: seq<Trade>, initial: real): (c: seq<EquityPoint>)
    ensures |sorted| == 0 ==> |c| == 0
    ensures |sorted| > 0 ==> |c| == |sorted| + 1 && c[0].time == CloseKey(sorted[0]) - LeadIn
    ensures |sorted| > 0 ==> c[0].balance == initial
    ensures forall i :: 1 <= i < |c| ==> c[i].time == CloseKey(sorted[i - 1])
    ensures ShiftedWalk(c, sorted, initial)
  {
    if |sorted| == 0 then []
    else
      assert BasicStats.Balance(sorted, 0) == 0.0 by {
        assert sorted[..0] == [];
      }
      [EquityPoint(CloseKey(sorted[0]) - LeadIn, initial)] + RunningPoints(sorted, initial)
  }

  /** The curve ends at the initial balance plus the total profit. */
  lemma CurveEnd(sorted: seq<Trade>, initial: real)
    requires |sorted| > 0
    ensures EquityCurve(sorted, initial)[|sorted|].balance == initial + SumProfit(sorted)
  {
    assert sorted[..|sorted|] == sorted;
  }

  /** Trades in close-time order give a curve in time order: the start
      point precedes the first close, and each later point is a close. */
  lemma CurveInTimeOrder(sorted: seq<Trade>, initial: real)
    requires Chronological(sorted)
    ensures TimeOrdered(EquityCurve(sorted, initial))
  {
    var c := EquityCurve(sorted, initial);
    forall i, j | 0 <= i <= j < |c|
      ensures c[i].time <= c[j].time
    {
      if 0 < i {
        assert CloseKey(sorted[i - 1]) <= CloseKey(sorted[j - 1]);
      } else if 0 < j {
        assert CloseKey(sorted[0]) <= CloseKey(sorted[j - 1]);
      }
    }
  }

  /** Curve times never decrease. */
  predicate TimeOrdered(c: seq<EquityPoint>) {
    forall i, j :: 0 <= i <= j < |c| ==> c[i].time <= c[j].time
  }

  /** Point `i` of `c` carries `initial` plus the profit of the first `i`
      trades of the walk. */
  predicate ShiftedWalk(c: seq<EquityPoint>, sorted: seq<Trade>, initial: real) {
    && |c| <= |sorted| + 1
    && forall i :: 0 <= i < |c| ==> c[i].balance == initial + BasicStats.Balance(sorted, i)
  }

  /** `max(balance for each point)`. */
  function PeakBalance(c: seq<EquityPoint>): (m: real)
    requires |c| > 0
    ensures forall i :: 0 <= i < |c| ==> c[i].balance <= m
    ensures exists i :: 0 <= i < |c| && c[i].balance == m
  {
    if |c| == 1 then c[0].balance
    else
      var m := PeakBalance(c[..|c| - 1]);
      assert forall i :: 0 <= i < |c| - 1 ==> c[..|c| - 1][i] == c[i];
      if c[|c| - 1].balance > m then c[|c| - 1].balance else m
  }

  // ---------------------------------------------------------------------
  // Drawdown periods

  /** A fall as a percentage of the peak it fell from, zero for a peak that
      is not positive. */
  function PercentOf(fall: real, peak: real): (r: real)
    ensures peak > 0.0 ==> QuotientOf(r, fall * 100.0, peak)
    ensures peak <= 0.0 ==> r == 0.0
  {
    if peak > 0.0 then fall / peak * 100.0 else 0.0
  }

  /** A period from `start` at `peak` down to `trough`, measured up to
      `until`; a recovered period ends and recovers at `until`. */
  function NewPeriod(start: Timestamp, peak: real, trough: real, until: Timestamp, recovered: bool): (p: Period)
    ensures p.start == start && p.peak == peak && p.trough == trough
    ensures p.depth == peak - trough && p.depthPct == PercentOf(peak - trough, peak)
    ensures p.duration == until - start
    ensures p.end == p.recovery
    ensures p.end.Some? <==> recovered
    ensures recovered ==> p.end == Some(until)
  {
    Period(
      start, if recovered then Some(until) else None,
      peak, trough, peak - trough, PercentOf(peak - trough, peak),
      until - start, if recovered then Some(until) else None)
  }

  /** Loop state of `_identify_drawdown_periods`. */
  datatype WalkState = WalkState(
    peak: real,
    peakTime: Timestamp,
    start: Timestamp,
    trough: real,
    inDrawdown: bool,
    periods: seq<Period>)

  function Start(t0: Timestamp, initial: real): WalkState {
    WalkState(initial, t0, t0, initial, false, [])
  }

  /** One curve point: a balance above the peak closes any open drawdown
      and sets a new peak; a balance below it opens a drawdown or deepens
      the trough; a balance equal to the peak changes nothing. */
  function Step(w: WalkState, p: EquityPoint): (r: WalkState)
    ensures r.peak >= w.peak && r.peak >= p.balance
    ensures |w.periods| <= |r.periods| <= |w.periods| + 1
    ensures r.periods[..|w.periods|] == w.periods
    ensures |r.periods| == |w.periods| + 1 <==> w.inDrawdown && p.balance > w.peak
  {
    if p.balance > w.peak then
      var periods :=
        if w.inDrawdown then w.periods + [NewPeriod(w.start, w.peak, w.trough, p.time, true)]
        else w.periods;
      WalkState(p.balance, p.time, w.start, p.balance, false, periods)
    else if p.balance < w.peak then
      if !w.inDrawdown then
        WalkState(w.peak, w.peakTime, w.peakTime, p.balance, true, w.periods)
      else
        WalkState(w.peak, w.peakTime, w.start, if p.balance < w.trough then p.balance else w.trough, true, w.periods)
    else
      w
  }

  /** Some point at time `start` has balance `peak` and a point no earlier
      in the curve has balance `trough`. */
  predicate Witnessed(c: seq<EquityPoint>, start: Timestamp, peak: real, trough: real) {
    exists j, i :: 0 <= j <= i < |c| && c[j] == EquityPoint(start, peak) && c[i].balance == trough
  }

  /** A recovered period ends at the time of a curve point above its peak. */
  predicate RecoveredOn(c: seq<EquityPoint>, p: Period) {
    p.end.Some? ==> exists i :: 0 <= i < |c| && c[i].time == p.end.value && c[i].balance > p.peak
  }

  /** No period ends before it starts, and each period has ended by the
      time the next one starts. */
  predicate InTimeOrder(ps: seq<Period>) {
    && (forall q :: 0 <= q < |ps| ==> ps[q].duration >= 0)
    && (forall q :: 0 <= q < |ps| - 1 ==> ps[q].end.Some? && ps[q].end.value <= ps[q + 1].start)
  }

  /** A recovered or open period with a positive depth from its peak. */
  predicate WellFormed(p: Period) {
    && p.trough < p.peak
    && p.depth == p.peak - p.trough
    && p.end == p.recovery
    && (p.end.Some? ==> p.duration == p.end.value - p.start)
  }

  /** Peaks of successive periods strictly rise. */
  predicate RisingPeaks(ps: seq<Period>) {
    forall a, b :: 0 <= a < b < |ps| ==> ps[a].peak < ps[b].peak
  }

  /** The greatest depth, zero when there are no periods. */
  function MaxDepth(ps: seq<Period>): (m: real)
    ensures m >= 0.0
    ensures forall q :: 0 <= q < |ps| ==> ps[q].depth <= m
    ensures m == 0.0 || exists q :: 0 <= q < |ps| && ps[q].depth == m
  {
    if |ps| == 0 then 0.0
    else
      assert forall q :: 0 <= q < |ps| - 1 ==> ps[..|ps| - 1][q] == ps[q];
      Max(MaxDepth(ps[..|ps| - 1]), ps[|ps| - 1].depth)
  }

  function CurrentDepth(w: WalkState): real {
    if w.inDrawdown then w.peak - w.trough else 0.0
  }

  /** The peak is the highest balance so far and was reached at `peakTime`;
      outside a drawdown the last balance sits at the peak, inside one the
      trough lies below the peak and was reached after it. */
  predicate PeakInv(c: seq<EquityPoint>, w: WalkState) {
    && |c| > 0
    && (forall i :: 0 <= i < |c| ==> c[i].balance <= w.peak)
    && (exists j :: 0 <= j < |c| && c[j] == EquityPoint(w.peakTime, w.peak))
    && (!w.inDrawdown ==> c[|c| - 1].balance == w.peak && w.trough == w.peak)
    && (w.inDrawdown ==> w.trough < w.peak && w.start == w.peakTime)
    && (w.inDrawdown ==> Witnessed(c, w.start, w.peak, w.trough))
  }

  /** No fall of the balance so far is deeper than the deepest period,
      counting the open drawdown. */
  predicate FallsInv(c: seq<EquityPoint>, w: WalkState) {
    forall j, i :: 0 <= j <= i < |c| ==> c[j].balance - c[i].balance <= Max(MaxDepth(w.periods), CurrentDepth(w))
  }

  /** Every recorded period is recovered, well formed, witnessed by the
      curve, and below the current peak; their peaks rise. */
  predicate PeriodsInv(c: seq<EquityPoint>, w: WalkState) {
    && (forall q :: 0 <= q < |w.periods| ==> WellFormed(w.periods[q]) && w.periods[q].end.Some?)
    && (forall q :: 0 <= q < |w.periods| ==> Witnessed(c, w.periods[q].start, w.periods[q].peak, w.periods[q].trough))
    && (forall q :: 0 <= q < |w.periods| ==> RecoveredOn(c, w.periods[q]))
    && (forall q :: 0 <= q < |w.periods| ==> w.periods[q].peak < w.peak)
    && RisingPeaks(w.periods)
  }

  predicate Valid(c: seq<EquityPoint>, w: WalkState) {
    PeakInv(c, w) && FallsInv(c, w) && PeriodsInv(c, w)
  }

  /** On a curve in time order the recorded periods are in time order, and
      the last one has ended by the time of the current peak. */
  predicate OrderInv(w: WalkState) {
    && InTimeOrder(w.periods)
    && (|w.periods| > 0 ==> w.periods[|w.periods| - 1].end.Some? && w.periods[|w.periods| - 1].end.value <= w.peakTime)
  }

  lemma WitnessedGrows(c: seq<EquityPoint>, init: seq<EquityPoint>, start: Timestamp, peak: real, trough: real)
    requires |c| > 0 && init == c[..|c| - 1]
    requires Witnessed(init, start, peak, trough)
    ensures Witnessed(c, start, peak, trough)
  {
    var j, i :| 0 <= j <= i < |init| && init[j] == EquityPoint(start, peak) && init[i].balance == trough;
    assert c[j] == init[j] && c[i] == init[i];
  }

  lemma RecoveredGrows(c: seq<EquityPoint>, init: seq<EquityPoint>, p: Period)
    requires |c| > 0 && init == c[..|c| - 1]
    requires RecoveredOn(init, p)
    ensures RecoveredOn(c, p)
  {
    if p.end.Some? {
      var i :| 0 <= i < |init| && init[i].time == p.end.value && init[i].balance > p.peak;
      assert c[i] == init[i];
    }
  }

  /** The time of the peak is the time of a point no later than the last. */
  lemma PeakTimeBefore(c: seq<EquityPoint>, w: WalkState)
    requires PeakInv(c, w) && TimeOrdered(c)
    ensures w.peakTime <= c[|c| - 1].time
  {
    var j :| 0 <= j < |c| && c[j] == EquityPoint(w.peakTime, w.peak);
  }

  lemma StepOrder(c: seq<EquityPoint>, init: seq<EquityPoint>, w0: WalkState, w: WalkState)
    requires |c| >= 2 && init == c[..|c| - 1]
    requires PeakInv(init, w0) && w == Step(w0, c[|c| - 1])
    requires TimeOrdered(init) ==> OrderInv(w0)
    ensures TimeOrdered(c) ==> OrderInv(w)
  {
    if !TimeOrdered(c) {
      return;
    }
    var p := c[|c| - 1];
    assert TimeOrdered(init);
    PeakTimeBefore(init, w0);
    assert init[|init| - 1] == c[|c| - 2];
    var k := |w0.periods|;
    if |w.periods| == k + 1 {
      assert w.periods[..k] == w0.periods;
      forall q | 0 <= q < k + 1
        ensures w.periods[q].duration >= 0
      {
        if q < k {
          assert w.periods[q] == w0.periods[q];
        }
      }
      forall q | 0 <= q < k
        ensures w.periods[q].end.Some? && w.periods[q].end.value <= w.periods[q + 1].start
      {
        assert w.periods[q] == w0.periods[q];
        if q + 1 < k {
          assert w.periods[q + 1] == w0.periods[q + 1];
        }
      }
    }
  }

  lemma StepPeak(c: seq<EquityPoint>, init: seq<EquityPoint>, w0: WalkState, w: WalkState)
    requires |c| >= 2 && init == c[..|c| - 1]
    requires PeakInv(init, w0) && w == Step(w0, c[|c| - 1])
    ensures PeakInv(c, w)
  {
    var n := |c|;
    var p := c[n - 1];
    assert forall i :: 0 <= i < n - 1 ==> c[i] == init[i];
    var j0 :| 0 <= j0 < |init| && init[j0] == EquityPoint(w0.peakTime, w0.peak);
    assert c[j0] == EquityPoint(w0.peakTime, w0.peak);
    if p.balance > w0.peak {
      assert c[n - 1] == EquityPoint(w.peakTime, w.peak);
    } else if p.balance < w0.peak {
      if !w0.inDrawdown {
        assert c[j0] == EquityPoint(w.start, w.peak) && c[n - 1].balance == w.trough;
      } else {
        var j, i :| 0 <= j <= i < |init| && init[j] == EquityPoint(w0.start, w0.peak) && init[i].balance == w0.trough;
        assert c[j] == EquityPoint(w.start, w.peak);
        if p.balance < w0.trough {
          assert c[n - 1].balance == w.trough;
        } else {
          assert c[i].balance == w.trough;
        }
      }
    } else if w0.inDrawdown {
      WitnessedGrows(c, init, w0.start, w0.peak, w0.trough);
    }
  }

  lemma StepFalls(c: seq<EquityPoint>, init: seq<EquityPoint>, w0: WalkState, w: WalkState)
    requires |c| >= 2 && init == c[..|c| - 1]
    requires PeakInv(init, w0) && FallsInv(init, w0) && w == Step(w0, c[|c| - 1])
    ensures FallsInv(c, w)
  {
    var n := |c|;
    var p := c[n - 1];
    assert forall i :: 0 <= i < n - 1 ==> c[i] == init[i];
    var before := Max(MaxDepth(w0.periods), CurrentDepth(w0));
    var after := Max(MaxDepth(w.periods), CurrentDepth(w));
    assert before <= after by {
      if p.balance > w0.peak && w0.inDrawdown {
        assert w.periods[..|w.periods| - 1] == w0.periods;
        assert w.periods[|w.periods| - 1].depth == CurrentDepth(w0);
      }
    }
    forall j, i | 0 <= j <= i < n
      ensures c[j].balance - c[i].balance <= after
    {
      if i < n - 1 {
        assert init[j].balance - init[i].balance <= before;
      } else if j < n - 1 {
        assert init[j].balance <= w0.peak;
        if p.balance < w0.peak {
          assert w.inDrawdown && w.trough <= p.balance;
        }
      }
    }
  }

  lemma StepPeriods(c: seq<EquityPoint>, init: seq<EquityPoint>, w0: WalkState, w: WalkState)
    requires |c| >= 2 && init == c[..|c| - 1]
    requires PeakInv(init, w0) && PeriodsInv(init, w0) && w == Step(w0, c[|c| - 1])
    ensures PeriodsInv(c, w)
  {
    var n := |c|;
    var k := |w0.periods|;
    forall q | 0 <= q < k
      ensures Witnessed(c, w.periods[q].start, w.periods[q].peak, w.periods[q].trough)
      ensures w.periods[q] == w0.periods[q]
    {
      assert w.periods[..k][q] == w.periods[q];
      WitnessedGrows(c, init, w0.periods[q].start, w0.periods[q].peak, w0.periods[q].trough);
    }
    forall q | 0 <= q < k
      ensures RecoveredOn(c, w.periods[q])
    {
      assert w.periods[..k][q] == w.periods[q];
      RecoveredGrows(c, init, w0.periods[q]);
    }
    if |w.periods| == k + 1 {
      WitnessedGrows(c, init, w0.start, w0.peak, w0.trough);
      assert w.periods[k] == NewPeriod(w0.start, w0.peak, w0.trough, c[n - 1].time, true);
      assert c[n - 1].time == w.periods[k].end.value && c[n - 1].balance > w.periods[k].peak;
    }
  }

  // ---------------------------------------------------------------------
  // Which periods the walk reports

  /** The highest balance among the first `i + 1` points. */
  function RunPeak(c: seq<EquityPoint>, i: int): real
    requires 0 <= i < |c|
    decreases i
  {
    if i == 0 then c[0].balance else Max(RunPeak(c, i - 1), c[i].balance)
  }

  /** Point `j` sets a new high: it is the first point, or its balance is
      above every earlier one. */
  predicate NewHighAt(c: seq<EquityPoint>, j: int)
    requires 0 <= j < |c|
  {
    j == 0 || RunPeak(c, j - 1) < c[j].balance
  }

  /** Period `p` is read off the curve: it starts at the point that set its
      peak as a new high, its trough is a balance reached while that high
      stood, a recovered period ends at the first point above the peak, an
      open one falls from the curve's highest balance, and its percentage is
      its depth over its peak. */
  predicate PeriodOnCurve(c: seq<EquityPoint>, p: Period) {
    && (exists j :: 0 <= j < |c| && c[j] == EquityPoint(p.start, p.peak) && NewHighAt(c, j))
    && (exists i :: 0 <= i < |c| && RunPeak(c, i) == p.peak && c[i].balance == p.trough)
    && (p.end.Some? ==>
          exists i :: 0 < i < |c| && c[i].time == p.end.value && c[i].balance > p.peak && RunPeak(c, i - 1) == p.peak)
    && (p.end.None? ==> |c| > 0 && p.peak == PeakBalance(c))
    && p.depthPct == PercentOf(p.depth, p.peak)
  }

  /** A point below the highest balance so far lies in the period that
      falls from that high, and that period's trough is no higher. */
  predicate DipCovered(c: seq<EquityPoint>, ps: seq<Period>, i: int)
    requires 0 <= i < |c|
  {
    c[i].balance < RunPeak(c, i) ==>
      exists q :: 0 <= q < |ps| && ps[q].peak == RunPeak(c, i) && ps[q].trough <= c[i].balance
  }

  /** Every period is read off the curve and every dip of the curve is
      covered: together with rising peaks this leaves exactly one period
      per high that the balance fell from, with the lowest balance reached
      before the high was passed as its trough. */
  predicate ReportsEveryDip(c: seq<EquityPoint>, ps: seq<Period>) {
    && (forall q :: 0 <= q < |ps| ==> PeriodOnCurve(c, ps[q]))
    && (forall i :: 0 <= i < |c| ==> DipCovered(c, ps, i))
  }

  /** The walk's peak was set as a new high, its recorded periods are read
      off the curve, and an open drawdown's trough was reached under the
      current peak. */
  predicate DipWitnesses(c: seq<EquityPoint>, w: WalkState) {
    && |c| > 0
    && (exists j :: 0 <= j < |c| && c[j] == EquityPoint(w.peakTime, w.peak) && NewHighAt(c, j))
    && (forall q :: 0 <= q < |w.periods| ==> PeriodOnCurve(c, w.periods[q]))
    && TroughOnCurve(c, w)
  }

  /** An open drawdown's trough is a balance taken under its running peak. */
  predicate TroughOnCurve(c: seq<EquityPoint>, w: WalkState) {
    w.inDrawdown ==> exists i :: 0 <= i < |c| && RunPeak(c, i) == w.peak && c[i].balance == w.trough
  }

  /** Each dip so far is covered by a recorded period or by the open drawdown. */
  predicate DipsCovered(c: seq<EquityPoint>, w: WalkState) {
    forall i :: 0 <= i < |c| ==>
      DipCovered(c, w.periods, i) || (w.inDrawdown && w.peak == RunPeak(c, i) && w.trough <= c[i].balance)
  }

  predicate DipsInv(c: seq<EquityPoint>, w: WalkState) {
    DipWitnesses(c, w) && DipsCovered(c, w)
  }

  /** The running peak is the highest of the balances up to its point. */
  lemma {:induction false} RunPeakIsMax(c: seq<EquityPoint>, i: int)
    requires 0 <= i < |c|
    ensures forall k :: 0 <= k <= i ==> c[k].balance <= RunPeak(c, i)
    ensures exists k :: 0 <= k <= i && c[k].balance == RunPeak(c, i)
  {
    if i == 0 {
      assert c[0].balance == RunPeak(c, 0);
    } else {
      RunPeakIsMax(c, i - 1);
      if c[i].balance > RunPeak(c, i - 1) {
        assert c[i].balance == RunPeak(c, i);
      } else {
        var k :| 0 <= k <= i - 1 && c[k].balance == RunPeak(c, i - 1);
        assert c[k].balance == RunPeak(c, i);
      }
    }
  }

  /** One running peak of a prefix, unchanged when the curve grows. */
  lemma {:induction false} RunPeakAt(c: seq<EquityPoint>, init: seq<EquityPoint>, i: int)
    requires |c| > 0 && init == c[..|c| - 1] && 0 <= i < |init|
    ensures RunPeak(c, i) == RunPeak(init, i)
  {
    assert c[i] == init[i];
    if i > 0 {
      RunPeakAt(c, init, i - 1);
    }
  }

  /** Running peaks of a prefix do not change when the curve grows. */
  lemma RunPeakGrows(c: seq<EquityPoint>, init: seq<EquityPoint>)
    requires |c| > 0 && init == c[..|c| - 1]
    ensures forall i :: 0 <= i < |init| ==> RunPeak(c, i) == RunPeak(init, i)
    ensures forall j :: 0 <= j < |init| ==> (NewHighAt(c, j) <==> NewHighAt(init, j))
  {
    forall i | 0 <= i < |init|
      ensures RunPeak(c, i) == RunPeak(init, i)
    {
      RunPeakAt(c, init, i);
    }
  }

  /** The running peak at the last point is the curve's highest balance. */
  lemma RunPeakLast(c: seq<EquityPoint>)
    requires |c| > 0
    ensures RunPeak(c, |c| - 1) == PeakBalance(c)
  {
    RunPeakIsMax(c, |c| - 1);
    var k :| 0 <= k < |c| && c[k].balance == RunPeak(c, |c| - 1);
    var i :| 0 <= i < |c| && c[i].balance == PeakBalance(c);
    assert c[i].balance <= RunPeak(c, |c| - 1) && c[k].balance <= PeakBalance(c);
  }

  /** The walk's peak is the curve's highest balance. */
  lemma PeakIsPeakBalance(c: seq<EquityPoint>, w: WalkState)
    requires PeakInv(c, w)
    ensures w.peak == PeakBalance(c) == RunPeak(c, |c| - 1)
  {
    RunPeakLast(c);
    var j :| 0 <= j < |c| && c[j] == EquityPoint(w.peakTime, w.peak);
    var i :| 0 <= i < |c| && c[i].balance == PeakBalance(c);
    assert c[j].balance <= PeakBalance(c) && c[i].balance <= w.peak;
  }

  /** A period is read off the curve once its three points are named. */
  lemma OnCurveAt(c: seq<EquityPoint>, p: Period, j: int, i: int, e: int)
    requires 0 <= j < |c| && c[j] == EquityPoint(p.start, p.peak) && NewHighAt(c, j)
    requires 0 <= i < |c| && RunPeak(c, i) == p.peak && c[i].balance == p.trough
    requires p.end.Some? ==> 0 < e < |c| && c[e].time == p.end.value && c[e].balance > p.peak && RunPeak(c, e - 1) == p.peak
    requires p.end.None? ==> p.peak == PeakBalance(c)
    requires p.depthPct == PercentOf(p.depth, p.peak)
    ensures PeriodOnCurve(c, p)
  {
  }

  lemma PeriodOnCurveGrows(c: seq<EquityPoint>, init: seq<EquityPoint>, p: Period)
    requires |c| > 0 && init == c[..|c| - 1]
    requires PeriodOnCurve(init, p) && p.end.Some?
    ensures PeriodOnCurve(c, p)
  {
    RunPeakGrows(c, init);
    var j :| 0 <= j < |init| && init[j] == EquityPoint(p.start, p.peak) && NewHighAt(init, j);
    assert c[j] == init[j] && NewHighAt(c, j);
    var i :| 0 <= i < |init| && RunPeak(init, i) == p.peak && init[i].balance == p.trough;
    assert c[i] == init[i] && RunPeak(c, i) == p.peak;
    var e :| 0 < e < |init| && init[e].time == p.end.value && init[e].balance > p.peak && RunPeak(init, e - 1) == p.peak;
    assert c[e] == init[e] && RunPeak(c, e - 1) == p.peak;
  }

  /** The walk starts with its peak set at the first point and no dips. */
  lemma StartDips(c: seq<EquityPoint>, w: WalkState)
    requires |c| == 1 && w == Start(c[0].time, c[0].balance)
    ensures DipsInv(c, w)
  {
    RunPeakLast(c);
    assert NewHighAt(c, 0);
  }

  lemma StepWitnesses(c: seq<EquityPoint>, init: seq<EquityPoint>, w0: WalkState, w: WalkState)
    requires |c| >= 2 && init == c[..|c| - 1]
    requires PeakInv(init, w0) && PeriodsInv(init, w0) && DipWitnesses(init, w0)
    requires w == Step(w0, c[|c| - 1])
    ensures DipWitnesses(c, w)
  {
    var n := |c|;
    var k := |w0.periods|;
    StepPeakWitness(c, init, w0, w);
    forall q | 0 <= q < k
      ensures PeriodOnCurve(c, w.periods[q])
    {
      assert w.periods[..k][q] == w.periods[q];
      PeriodOnCurveGrows(c, init, w0.periods[q]);
    }
    if |w.periods| == k + 1 {
      StepClosedOnCurve(c, init, w0);
      assert w.periods[k] == NewPeriod(w0.start, w0.peak, w0.trough, c[n - 1].time, true);
    }
    PeakIsPeakBalance(init, w0);
    StepTroughWitness(c, init, w0, w);
  }

  /** The peak after a step was set as a new high. */
  lemma StepPeakWitness(c: seq<EquityPoint>, init: seq<EquityPoint>, w0: WalkState, w: WalkState)
    requires |c| >= 2 && init == c[..|c| - 1]
    requires PeakInv(init, w0) && DipWitnesses(init, w0)
    requires w == Step(w0, c[|c| - 1])
    ensures exists j :: 0 <= j < |c| && c[j] == EquityPoint(w.peakTime, w.peak) && NewHighAt(c, j)
  {
    var n := |c|;
    RunPeakGrows(c, init);
    PeakIsPeakBalance(init, w0);
    if c[n - 1].balance > w0.peak {
      assert RunPeak(c, n - 2) == w0.peak;
      assert NewHighAt(c, n - 1) && c[n - 1] == EquityPoint(w.peakTime, w.peak);
    } else {
      var j :| 0 <= j < |init| && init[j] == EquityPoint(w0.peakTime, w0.peak) && NewHighAt(init, j);
      assert c[j] == init[j] && NewHighAt(c, j);
    }
  }

  /** The period a new high closes is read off the curve. */
  lemma StepClosedOnCurve(c: seq<EquityPoint>, init: seq<EquityPoint>, w0: WalkState)
    requires |c| >= 2 && init == c[..|c| - 1]
    requires PeakInv(init, w0) && DipWitnesses(init, w0)
    requires w0.inDrawdown && c[|c| - 1].balance > w0.peak
    ensures PeriodOnCurve(c, NewPeriod(w0.start, w0.peak, w0.trough, c[|c| - 1].time, true))
  {
    var n := |c|;
    var np := NewPeriod(w0.start, w0.peak, w0.trough, c[n - 1].time, true);
    PeakIsPeakBalance(init, w0);
    RunPeakAt(c, init, n - 2);
    var j :| 0 <= j < |init| && init[j] == EquityPoint(w0.peakTime, w0.peak) && NewHighAt(init, j);
    if j > 0 {
      RunPeakAt(c, init, j - 1);
    }
    var i :| 0 <= i < |init| && RunPeak(init, i) == w0.peak && init[i].balance == w0.trough;
    RunPeakAt(c, init, i);
    assert c[j] == init[j] && c[i] == init[i];
    OnCurveAt(c, np, j, i, n - 1);
  }

  /** A balance under the peak and under any open trough becomes the trough. */
  lemma StepDeepens(w: WalkState, p: EquityPoint)
    requires p.balance < w.peak && (!w.inDrawdown || p.balance < w.trough)
    ensures Step(w, p).peak == w.peak && Step(w, p).trough == p.balance && Step(w, p).inDrawdown
  {
  }

  /** A balance under the running peak leaves the running peak where it was. */
  lemma DeepenedAt(c: seq<EquityPoint>, init: seq<EquityPoint>, peak: real)
    requires |c| >= 2 && init == c[..|c| - 1]
    requires peak == RunPeak(init, |init| - 1) && c[|c| - 1].balance < peak
    ensures RunPeak(c, |c| - 1) == peak
  {
    RunPeakAt(c, init, |c| - 2);
  }

  /** An open drawdown's trough after a step was reached under the peak. */
  lemma StepTroughWitness(c: seq<EquityPoint>, init: seq<EquityPoint>, w0: WalkState, w: WalkState)
    requires |c| >= 2 && init == c[..|c| - 1]
    requires w0.peak == RunPeak(init, |init| - 1) && TroughOnCurve(init, w0)
    requires w == Step(w0, c[|c| - 1])
    ensures TroughOnCurve(c, w)
  {
    var n := |c|;
    var p := c[n - 1];
    if w.inDrawdown {
      if p.balance < w0.peak && (!w0.inDrawdown || p.balance < w0.trough) {
        StepDeepens(w0, p);
        DeepenedAt(c, init, w0.peak);
        assert RunPeak(c, n - 1) == w.peak && c[n - 1].balance == w.trough;
      } else {
        assert w0.inDrawdown && w.peak == w0.peak && w.trough == w0.trough;
        var i :| 0 <= i < |init| && RunPeak(init, i) == w0.peak && init[i].balance == w0.trough;
        RunPeakAt(c, init, i);
        assert c[i] == init[i];
      }
    }
  }

  lemma StepCovers(c: seq<EquityPoint>, init: seq<EquityPoint>, w0: WalkState, w: WalkState)
    requires |c| >= 2 && init == c[..|c| - 1]
    requires PeakInv(init, w0) && DipsCovered(init, w0)
    requires w == Step(w0, c[|c| - 1])
    ensures DipsCovered(c, w)
  {
    var n := |c|;
    var p := c[n - 1];
    var k := |w0.periods|;
    RunPeakGrows(c, init);
    RunPeakLast(c);
    PeakIsPeakBalance(init, w0);
    assert RunPeak(c, n - 2) == w0.peak;
    forall i | 0 <= i < n
      ensures DipCovered(c, w.periods, i) || (w.inDrawdown && w.peak == RunPeak(c, i) && w.trough <= c[i].balance)
    {
      if i == n - 1 {
        assert p.balance < w0.peak ==> w.inDrawdown && w.peak == RunPeak(c, i) && w.trough <= c[i].balance;
      } else {
        assert c[i] == init[i] && RunPeak(c, i) == RunPeak(init, i);
        if DipCovered(init, w0.periods, i) && c[i].balance < RunPeak(c, i) {
          var q :| 0 <= q < k && w0.periods[q].peak == RunPeak(init, i) && w0.periods[q].trough <= init[i].balance;
          assert w.periods[..k][q] == w.periods[q];
        } else if !DipCovered(init, w0.periods, i) && p.balance > w0.peak {
          assert w.periods[k] == NewPeriod(w0.start, w0.peak, w0.trough, p.time, true);
        }
      }
    }
  }

  /** Closing the walk reports every dip, each period read off the curve. */
  lemma FinishDips(c: seq<EquityPoint>, w: WalkState)
    requires Valid(c, w) && DipsInv(c, w)
    ensures ReportsEveryDip(c, Finish(w, c[|c| - 1].time))
  {
    FinishOnCurve(c, w, Finish(w, c[|c| - 1].time));
    FinishCovers(c, w, Finish(w, c[|c| - 1].time));
  }

  lemma FinishOnCurve(c: seq<EquityPoint>, w: WalkState, ps: seq<Period>)
    requires PeakInv(c, w) && DipWitnesses(c, w) && ps == Finish(w, c[|c| - 1].time)
    ensures forall q :: 0 <= q < |ps| ==> PeriodOnCurve(c, ps[q])
  {
    var k := |w.periods|;
    assert forall q :: 0 <= q < k ==> ps[q] == w.periods[q];
    if w.inDrawdown {
      PeakIsPeakBalance(c, w);
      var np := NewPeriod(w.start, w.peak, w.trough, c[|c| - 1].time, false);
      assert ps[k] == np;
      var j :| 0 <= j < |c| && c[j] == EquityPoint(w.peakTime, w.peak) && NewHighAt(c, j);
      var i :| 0 <= i < |c| && RunPeak(c, i) == w.peak && c[i].balance == w.trough;
      OnCurveAt(c, np, j, i, 0);
    }
  }

  lemma FinishCovers(c: seq<EquityPoint>, w: WalkState, ps: seq<Period>)
    requires |c| > 0 && DipsCovered(c, w) && ps == Finish(w, c[|c| - 1].time)
    ensures forall i :: 0 <= i < |c| ==> DipCovered(c, ps, i)
  {
    var k := |w.periods|;
    assert forall q :: 0 <= q < k ==> ps[q] == w.periods[q];
    forall i | 0 <= i < |c|
      ensures DipCovered(c, ps, i)
    {
      if c[i].balance < RunPeak(c, i) && !DipCovered(c, w.periods, i) {
        assert ps[k].peak == RunPeak(c, i) && ps[k].trough <= c[i].balance;
      }
    }
  }

  /** The walk of `_identify_drawdown_periods` over a curve that opens at
      the initial balance, before the final open period is added. */
  function WalkCurve(c: seq<EquityPoint>, initial: real): (w: WalkState)
    requires |c| > 0 && c[0].balance == initial
    ensures Valid(c, w)
    ensures TimeOrdered(c) ==> OrderInv(w)
  {
    if |c| == 1 then
      var w := Step(Start(c[0].time, initial), c[0]);
      assert c[0] == EquityPoint(w.peakTime, w.peak);
      w
    else
      var init := c[..|c| - 1];
      var w0 := WalkCurve(init, initial);
      var w := Step(w0, c[|c| - 1]);
      StepPeak(c, init, w0, w);
      StepFalls(c, init, w0, w);
      StepPeriods(c, init, w0, w);
      StepOrder(c, init, w0, w);
      w
  }

  /** The walk of a longer curve is one step past the walk of its prefix. */
  lemma WalkLast(c: seq<EquityPoint>, initial: real)
    requires |c| > 1 && c[0].balance == initial
    ensures WalkCurve(c, initial) == Step(WalkCurve(c[..|c| - 1], initial), c[|c| - 1])
  {
  }

  /** The walk keeps every dip covered and every period read off the curve. */
  lemma {:induction false} WalkDips(c: seq<EquityPoint>, initial: real)
    requires |c| > 0 && c[0].balance == initial
    ensures DipsInv(c, WalkCurve(c, initial))
  {
    if |c| == 1 {
      StartDips(c, WalkCurve(c, initial));
    } else {
      var init := c[..|c| - 1];
      WalkDips(init, initial);
      StepWitnesses(c, init, WalkCurve(init, initial), WalkCurve(c, initial));
      StepCovers(c, init, WalkCurve(init, initial), WalkCurve(c, initial));
    }
  }

  /** The periods of a finished walk: a drawdown still open at the end is
      reported as a last, unrecovered period measured up to `lastTime`. */
  function Finish(w: WalkState, lastTime: Timestamp): seq<Period> {
    if w.inDrawdown then w.periods + [NewPeriod(w.start, w.peak, w.trough, lastTime, false)]
    else w.periods
  }

  /** All periods are well formed and witnessed by the curve, only the last
      one can still be open (measured up to the last point), and their peaks
      rise. */
  predicate Shaped(c: seq<EquityPoint>, ps: seq<Period>) {
    && |c| > 0
    && (forall q :: 0 <= q < |ps| ==> WellFormed(ps[q]))
    && (forall q :: 0 <= q < |ps| ==> Witnessed(c, ps[q].start, ps[q].peak, ps[q].trough))
    && (forall q :: 0 <= q < |ps| ==> RecoveredOn(c, ps[q]))
    && (forall q :: 0 <= q < |ps| - 1 ==> ps[q].end.Some?)
    && (|ps| > 0 && ps[|ps| - 1].end.None? ==> ps[|ps| - 1].duration == c[|c| - 1].time - ps[|ps| - 1].start)
    && RisingPeaks(ps)
  }

  /** The deepest period is exactly the deepest fall of the balance
      anywhere on the curve. */
  predicate DeepestFallIsMaxDepth(c: seq<EquityPoint>, ps: seq<Period>) {
    IsDeepestFallOfCurve(c, MaxDepth(ps))
  }

  lemma FinishShaped(c: seq<EquityPoint>, w: WalkState)
    requires PeakInv(c, w) && PeriodsInv(c, w)
    ensures Shaped(c, Finish(w, c[|c| - 1].time))
  {
    var ps := Finish(w, c[|c| - 1].time);
    if w.inDrawdown {
      var p := NewPeriod(w.start, w.peak, w.trough, c[|c| - 1].time, false);
      assert ps == w.periods + [p];
      assert WellFormed(p);
      forall q | 0 <= q < |ps|
        ensures WellFormed(ps[q]) && Witnessed(c, ps[q].start, ps[q].peak, ps[q].trough) && RecoveredOn(c, ps[q])
      {
        if q < |w.periods| {
          assert ps[q] == w.periods[q];
        }
      }
      forall a, b | 0 <= a < b < |ps|
        ensures ps[a].peak < ps[b].peak
      {
        assert ps[a] == w.periods[a];
        if b < |w.periods| {
          assert ps[b] == w.periods[b];
        }
      }
    }
  }

  /** On a curve in time order the finished periods are in time order: the
      open drawdown starts at the current peak, after every recorded period
      has ended, and is measured up to the last point. */
  lemma FinishOrder(c: seq<EquityPoint>, w: WalkState)
    requires |c| > 0 && PeakInv(c, w)
    requires TimeOrdered(c) ==> OrderInv(w)
    ensures TimeOrdered(c) ==> InTimeOrder(Finish(w, c[|c| - 1].time))
  {
    if !TimeOrdered(c) {
      return;
    }
    PeakTimeBefore(c, w);
    var ps := Finish(w, c[|c| - 1].time);
    if w.inDrawdown {
      var k := |w.periods|;
      assert ps[..k] == w.periods;
      forall q | 0 <= q < k + 1
        ensures ps[q].duration >= 0
      {
        if q < k {
          assert ps[q] == w.periods[q];
        }
      }
      forall q | 0 <= q < k
        ensures ps[q].end.Some? && ps[q].end.value <= ps[q + 1].start
      {
        assert ps[q] == w.periods[q];
        if q + 1 < k {
          assert ps[q + 1] == w.periods[q + 1];
        }
      }
    }
  }

  /** Closing the walk moves the open drawdown's depth into the periods. */
  lemma FinishMaxDepth(w: WalkState, t: Timestamp)
    ensures MaxDepth(Finish(w, t)) == Max(MaxDepth(w.periods), CurrentDepth(w))
  {
    if w.inDrawdown {
      var ps := Finish(w, t);
      assert ps[..|ps| - 1] == w.periods;
    }
  }

  lemma FinishDeepest(c: seq<EquityPoint>, w: WalkState)
    requires PeakInv(c, w) && FallsInv(c, w)
    requires forall q :: 0 <= q < |w.periods| ==> WellFormed(w.periods[q])
    requires forall q :: 0 <= q < |w.periods| ==> Witnessed(c, w.periods[q].start, w.periods[q].peak, w.periods[q].trough)
    ensures DeepestFallIsMaxDepth(c, Finish(w, c[|c| - 1].time))
  {
    FinishMaxDepth(w, c[|c| - 1].time);
    FinishRealized(c, w);
  }

  lemma FinishRealized(c: seq<EquityPoint>, w: WalkState)
    requires PeakInv(c, w)
    requires forall q :: 0 <= q < |w.periods| ==> WellFormed(w.periods[q])
    requires forall q :: 0 <= q < |w.periods| ==> Witnessed(c, w.periods[q].start, w.periods[q].peak, w.periods[q].trough)
    ensures exists j, i :: 0 <= j <= i < |c| && c[j].balance - c[i].balance == MaxDepth(Finish(w, c[|c| - 1].time))
  {
    var ps := Finish(w, c[|c| - 1].time);
    var m := MaxDepth(ps);
    if m == 0.0 {
      assert c[0].balance - c[0].balance == m;
    } else {
      var q :| 0 <= q < |ps| && ps[q].depth == m;
      if q < |w.periods| {
        var p := w.periods[q];
        assert ps[q] == p && WellFormed(p);
        var j, i :| 0 <= j <= i < |c| && c[j] == EquityPoint(p.start, p.peak) && c[i].balance == p.trough;
        assert c[j].balance - c[i].balance == m;
      } else {
        var j, i :| 0 <= j <= i < |c| && c[j] == EquityPoint(w.start, w.peak) && c[i].balance == w.trough;
        assert c[j].balance - c[i].balance == m;
      }
    }
  }

  lemma FinishOpen(c: seq<EquityPoint>, w: WalkState)
    requires Valid(c, w)
    ensures c[|c| - 1].balance < PeakBalance(c) ==>
      var ps := Finish(w, c[|c| - 1].time); |ps| > 0 && ps[|ps| - 1].end.None?
  {
    var i :| 0 <= i < |c| && c[i].balance == PeakBalance(c);
    assert c[i].balance <= w.peak;
  }

  /** `_identify_drawdown_periods`.  No curve gives no periods.  The periods
      are well formed, witnessed by the curve, only the last one can be
      open, their peaks rise, and the deepest one is exactly the deepest
      fall of the balance on the curve.  A last balance below the curve's
      peak always leaves the last period open. */
  function IdentifyPeriods(c: seq<EquityPoint>, initial: real): (ps: seq<Period>)
    requires |c| > 0 ==> c[0].balance == initial
    ensures |c| == 0 ==> ps == []
    ensures |c| > 0 ==> Shaped(c, ps) && DeepestFallIsMaxDepth(c, ps)
    ensures |c| > 0 ==> ReportsEveryDip(c, ps)
    ensures |c| > 0 && c[|c| - 1].balance < PeakBalance(c) ==> |ps| > 0 && ps[|ps| - 1].end.None?
    ensures TimeOrdered(c) ==> InTimeOrder(ps)
  {
    if |c| == 0 then []
    else
      var w := WalkCurve(c, initial);
      WalkDips(c, initial);
      FinishFacts(c, w);
      Finish(w, c[|c| - 1].time)
  }

  /** What closing the walk gives, gathered for `IdentifyPeriods`. */
  lemma FinishFacts(c: seq<EquityPoint>, w: WalkState)
    requires |c| > 0 && Valid(c, w) && DipsInv(c, w)
    requires TimeOrdered(c) ==> OrderInv(w)
    ensures Shaped(c, Finish(w, c[|c| - 1].time))
    ensures ReportsEveryDip(c, Finish(w, c[|c| - 1].time))
    ensures DeepestFallIsMaxDepth(c, Finish(w, c[|c| - 1].time))
    ensures c[|c| - 1].balance < PeakBalance(c) ==>
      var ps := Finish(w, c[|c| - 1].time); |ps| > 0 && ps[|ps| - 1].end.None?
    ensures TimeOrdered(c) ==> InTimeOrder(Finish(w, c[|c| - 1].time))
  {
    FinishShaped(c, w);
    FinishDeepest(c, w);
    FinishOpen(c, w);
    FinishOrder(c, w);
    FinishDips(c, w);
  }

  // ---------------------------------------------------------------------
  // Summary

  datatype Analysis = Analysis(
    currentDrawdown: real,
    currentDrawdownPct: real,
    maxDrawdown: real,
    maxDrawdownPct: real,
    averageDrawdown: real,
    averageDrawdownPct: real,
    periods: seq<Period>,
    longestDuration: int,
    averageRecovery: real,
    isInDrawdown: bool)

  function DepthRank(p: Period): Rank {
    Rank(p.depth, 0.0)
  }

  function DurationRank(p: Period): Rank {
    Rank(p.duration as real, 0.0)
  }

  predicate IsRecovered(p: Period) {
    p.recovery.Some?
  }

  function SumDepths(ps: seq<Period>): real {
    if |ps| == 0 then 0.0 else SumDepths(ps[..|ps| - 1]) + ps[|ps| - 1].depth
  }

  function SumDepthPcts(ps: seq<Period>): real {
    if |ps| == 0 then 0.0 else SumDepthPcts(ps[..|ps| - 1]) + ps[|ps| - 1].depthPct
  }

  function SumDurations(ps: seq<Period>): int {
    if |ps| == 0 then 0 else SumDurations(ps[..|ps| - 1]) + ps[|ps| - 1].duration
  }

  /** `max(periods, key=depth)`: the deepest period, the first among
      equals; its depth is the greatest depth. */
  function DeepestPeriod(ps: seq<Period>): (p: Period)
    requires |ps| > 0
    requires forall q :: 0 <= q < |ps| ==> WellFormed(ps[q])
    ensures exists q :: FirstDeepest(ps, q) && ps[q] == p
    ensures p.depth == MaxDepth(ps)
  {
    var q := ArgMax(ps, DepthRank);
    var m := MaxDepth(ps);
    assert WellFormed(ps[0]);
    assert m != 0.0;
    var k :| 0 <= k < |ps| && ps[k].depth == m;
    assert RankLe(DepthRank(ps[k]), DepthRank(ps[q]));
    ps[q]
  }

  /** Period `q` is the first of the deepest periods. */
  predicate FirstDeepest(ps: seq<Period>, q: int) {
    && 0 <= q < |ps|
    && (forall k :: 0 <= k < |ps| ==> ps[k].depth <= ps[q].depth)
    && (forall k :: 0 <= k < q ==> ps[k].depth < ps[q].depth)
  }

  /** `max(periods, key=duration).duration`. */
  function LongestDuration(ps: seq<Period>): (d: int)
    requires |ps| > 0
    ensures forall q :: 0 <= q < |ps| ==> ps[q].duration <= d
    ensures exists q :: 0 <= q < |ps| && ps[q].duration == d
  {
    var q := ArgMax(ps, DurationRank);
    assert forall k :: 0 <= k < |ps| ==> RankLe(DurationRank(ps[k]), DurationRank(ps[q]));
    ps[q].duration
  }

  /** The figures `get_analysis` derives from the periods, all zero when
      there are none: the deepest period gives the maximum and its
      percentage, the longest gives the longest duration, and recovery time
      is averaged over recovered periods only. */
  function Summarize(ps: seq<Period>): (a: Analysis)
    requires forall q :: 0 <= q < |ps| ==> WellFormed(ps[q])
    ensures a.periods == ps
    ensures |ps| > 0 ==> a.maxDrawdown == MaxDepth(ps)
    ensures |ps| > 0 ==>
      exists q :: FirstDeepest(ps, q) && ps[q].depth == a.maxDrawdown && ps[q].depthPct == a.maxDrawdownPct
    ensures forall q :: 0 <= q < |ps| ==> ps[q].duration <= a.longestDuration
    ensures |ps| > 0 ==> exists q :: 0 <= q < |ps| && ps[q].duration == a.longestDuration
    ensures a.currentDrawdown == 0.0 && a.currentDrawdownPct == 0.0 && !a.isInDrawdown
    ensures MeanOf(a.averageDrawdown, SumDepths(ps), |ps|)
    ensures MeanOf(a.averageDrawdownPct, SumDepthPcts(ps), |ps|)
    ensures MeanOf(a.averageRecovery, SumDurations(Filter(ps, IsRecovered)) as real, |Filter(ps, IsRecovered)|)
    ensures |ps| == 0 ==> a == Analysis(0.0, 0.0, 0.0, 0.0, 0.0, 0.0, [], 0, 0.0, false)
  {
    if |ps| == 0 then Analysis(0.0, 0.0, 0.0, 0.0, 0.0, 0.0, [], 0, 0.0, false)
    else
      var deepest := DeepestPeriod(ps);
      var recovered := Filter(ps, IsRecovered);
      Analysis(
        0.0, 0.0, deepest.depth, deepest.depthPct,
        BasicStats.Average(SumDepths(ps), |ps|), BasicStats.Average(SumDepthPcts(ps), |ps|),
        ps, LongestDuration(ps),
        BasicStats.Average(SumDurations(recovered) as real, |recovered|),
        false)
  }

  /** `get_analysis` once the curve exists: the summary of the periods,
      plus the current drawdown measured from the curve's highest balance. */
  function AnalyzeCurve(c: seq<EquityPoint>, initial: real): (a: Analysis)
    requires |c| > 0 && c[0].balance == initial
    ensures Shaped(c, a.periods) && IsDeepestFallOfCurve(c, a.maxDrawdown)
    ensures ReportsEveryDip(c, a.periods)
    ensures a.currentDrawdown == PeakBalance(c) - c[|c| - 1].balance
    ensures a.currentDrawdownPct == PercentOf(a.currentDrawdown, PeakBalance(c))
    ensures CurrentStatus(a)
    ensures a.(currentDrawdown := 0.0, currentDrawdownPct := 0.0, isInDrawdown := false) == Summarize(a.periods)
    ensures TimeOrdered(c) ==> InTimeOrder(a.periods)
  {
    var ps := IdentifyPeriods(c, initial);
    var s := Summarize(ps);
    var peak := PeakBalance(c);
    var current := peak - c[|c| - 1].balance;
    var a := s.(currentDrawdown := current, currentDrawdownPct := PercentOf(current, peak), isInDrawdown := current > 0.0);
    assert current >= 0.0 by {
      assert c[|c| - 1].balance <= peak;
    }
    assert current > 0.0 ==> |ps| > 0 && ps[|ps| - 1].end.None?;
    assert a.periods == ps && a.maxDrawdown == s.maxDrawdown == MaxDepth(ps);
    assert CurrentStatus(a);
    a
  }

  /** The analysis of curve `c`, whose last balance is `last`: its periods
      have the shape the walk gives them, report every dip of the curve and
      are summarized, and the current
      drawdown is the fall from the curve's highest balance to `last`. */
  ghost predicate CurrentFromCurve(a: Analysis, c: seq<EquityPoint>, last: real) {
    && Shaped(c, a.periods)
    && ReportsEveryDip(c, a.periods)
    && a.(currentDrawdown := 0.0, currentDrawdownPct := 0.0, isInDrawdown := false) == Summarize(a.periods)
    && a.currentDrawdown == PeakBalance(c) - last
    && a.currentDrawdownPct == PercentOf(a.currentDrawdown, PeakBalance(c))
  }

  /** The analysis of a curve is read off that curve, up to its last balance. */
  lemma AnalysisFromCurve(c: seq<EquityPoint>, initial: real)
    requires |c| > 0 && c[0].balance == initial
    ensures CurrentFromCurve(AnalyzeCurve(c, initial), c, c[|c| - 1].balance)
  {
  }

  /** The current drawdown is never negative, the account is in drawdown
      exactly when it is positive, and then the last period is still open;
      the maximum drawdown is the deepest period's depth. */
  predicate CurrentStatus(a: Analysis) {
    && a.currentDrawdown >= 0.0
    && (a.isInDrawdown <==> a.currentDrawdown > 0.0)
    && (a.isInDrawdown ==> |a.periods| > 0 && a.periods[|a.periods| - 1].end.None?)
    && a.maxDrawdown == MaxDepth(a.periods)
  }

  /** `get_analysis` over closed trades already in close-time order. */
  function AnalyzeSorted(sorted: seq<Trade>, initial: real): (a: Analysis)
    ensures |sorted| == 0 ==> a == Analysis(0.0, 0.0, 0.0, 0.0, 0.0, 0.0, [], 0, 0.0, false)
    ensures CurrentStatus(a)
    ensures |sorted| > 0 ==> CurrentFromCurve(a, EquityCurve(sorted, initial), initial + SumProfit(sorted))
    ensures |sorted| > 0 && Chronological(sorted) ==> InTimeOrder(a.periods)
  {
    if |sorted| == 0 then
      Analysis(0.0, 0.0, 0.0, 0.0, 0.0, 0.0, [], 0, 0.0, false)
    else
      SortedFromCurve(sorted, initial);
      if Chronological(sorted) then
        SortedInTimeOrder(sorted, initial);
        AnalyzeCurve(EquityCurve(sorted, initial), initial)
      else
        AnalyzeCurve(EquityCurve(sorted, initial), initial)
  }

  /** The analysis of the trades' curve ends at the balance after the last
      trade. */
  lemma SortedFromCurve(sorted: seq<Trade>, initial: real)
    requires |sorted| > 0
    ensures CurrentFromCurve(AnalyzeCurve(EquityCurve(sorted, initial), initial), EquityCurve(sorted, initial), initial + SumProfit(sorted))
  {
    CurveEnd(sorted, initial);
    AnalysisFromCurve(EquityCurve(sorted, initial), initial);
  }

  /** Trades in close-time order give periods in time order. */
  lemma SortedInTimeOrder(sorted: seq<Trade>, initial: real)
    requires |sorted| > 0 && Chronological(sorted)
    ensures InTimeOrder(AnalyzeCurve(EquityCurve(sorted, initial), initial).periods)
  {
    CurveInTimeOrder(sorted, initial);
  }

  /** `DrawdownAnalyzer(trades, initial).get_analysis()`: all zero for no
      closed trades; otherwise the analysis of their equity curve. */
  function Analyze(trades: seq<Trade>, initial: real): (a: Analysis)
    ensures |Closed(trades)| == 0 ==> a == Analysis(0.0, 0.0, 0.0, 0.0, 0.0, 0.0, [], 0, 0.0, false)
    ensures CurrentStatus(a)
    ensures |Closed(trades)| > 0 ==>
      CurrentFromCurve(a, EquityCurve(ByCloseTime(Closed(trades)), initial), initial + SumProfit(Closed(trades)))
    ensures InTimeOrder(a.periods)
  {
    ClosedFromCurve(trades, initial);
    AnalyzeSorted(ByCloseTime(Closed(trades)), initial)
  }

  /** Sorting by close time changes neither the final balance nor the
      time order of the periods found. */
  lemma ClosedFromCurve(trades: seq<Trade>, initial: real)
    ensures var sorted := ByCloseTime(Closed(trades));
      && (|sorted| > 0 ==> CurrentFromCurve(AnalyzeSorted(sorted, initial), EquityCurve(sorted, initial), initial + SumProfit(Closed(trades))))
      && InTimeOrder(AnalyzeSorted(sorted, initial).periods)
  {
    var sorted := ByCloseTime(Closed(trades));
    SumProfitReorder(sorted, Closed(trades));
  }

  /** The analyzer's deepest drawdown is the basic statistics' maximum
      drawdown amount for the same trades: both walk the closed trades in
      the same close-time order, and shifting every balance by the initial
      balance leaves every fall unchanged. */
  lemma AgreesWithBasicStats(trades: seq<Trade>, initial: real)
    ensures Analyze(trades, initial).maxDrawdown == BasicStats.MaxDrawdown(Closed(trades)).amount
  {
    AgreesOnSorted(ByCloseTime(Closed(trades)), initial, BasicStats.MaxDrawdown(Closed(trades)).amount);
  }

  lemma AgreesOnSorted(sorted: seq<Trade>, initial: real, amount: real)
    requires BasicStats.IsDeepestFall(sorted, amount)
    ensures AnalyzeSorted(sorted, initial).maxDrawdown == amount
  {
    if |sorted| > 0 {
      var c := EquityCurve(sorted, initial);
      AgreesOnCurve(sorted, initial, c, amount);
    } else {
      NoTradesNoFall(sorted, amount);
    }
  }

  lemma NoTradesNoFall(sorted: seq<Trade>, amount: real)
    requires |sorted| == 0 && BasicStats.IsDeepestFall(sorted, amount)
    ensures amount == 0.0
  {
    var j, i :| 0 <= j <= i <= |sorted| &&
      BasicStats.Balance(sorted, j) - BasicStats.Balance(sorted, i) == amount;
  }

  /** The deepest period of a curve that shifts the walk's running balance
      by the initial balance is the deepest fall of the walk. */
  lemma AgreesOnCurve(sorted: seq<Trade>, initial: real, c: seq<EquityPoint>, amount: real)
    requires |c| == |sorted| + 1 && c[0].balance == initial
    requires ShiftedWalk(c, sorted, initial)
    requires BasicStats.IsDeepestFall(sorted, amount)
    ensures AnalyzeCurve(c, initial).maxDrawdown == amount
  {
    var a := AnalyzeCurve(c, initial);
    CurveFallsAreTradeFalls(sorted, initial, c, amount);
    DeepestFallUnique(c, a.maxDrawdown, amount);
  }

  /** `d` is the deepest fall along the curve, from a balance to the same
      or a later one. */
  predicate IsDeepestFallOfCurve(c: seq<EquityPoint>, d: real) {
    && (forall j, i :: 0 <= j <= i < |c| ==> c[j].balance - c[i].balance <= d)
    && (exists j, i :: 0 <= j <= i < |c| && c[j].balance - c[i].balance == d)
  }

  lemma DeepestFallUnique(c: seq<EquityPoint>, a: real, b: real)
    requires IsDeepestFallOfCurve(c, a) && IsDeepestFallOfCurve(c, b)
    ensures a == b
  {
    var j1, i1 :| 0 <= j1 <= i1 < |c| && c[j1].balance - c[i1].balance == a;
    var j2, i2 :| 0 <= j2 <= i2 < |c| && c[j2].balance - c[i2].balance == b;
    assert a <= b && b <= a;
  }

  /** Falls along the curve are falls of the zero-based running balance. */
  lemma CurveFallsAreTradeFalls(sorted: seq<Trade>, initial: real, c: seq<EquityPoint>, amount: real)
    requires |c| == |sorted| + 1
    requires ShiftedWalk(c, sorted, initial)
    requires BasicStats.IsDeepestFall(sorted, amount)
    ensures IsDeepestFallOfCurve(c, amount)
  {
    forall j, i | 0 <= j <= i < |c|
      ensures c[j].balance - c[i].balance <= amount
    {
      assert BasicStats.Balance(sorted, j) - BasicStats.Balance(sorted, i) <= amount;
    }
    var j, i :| 0 <= j <= i <= |sorted| &&
      BasicStats.Balance(sorted, j) - BasicStats.Balance(sorted, i) == amount;
    assert c[j].balance - c[i].balance == amount;
  }
}
