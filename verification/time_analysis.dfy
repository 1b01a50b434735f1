/** Time-of-day, weekday, month, session and period patterns
    (src/analyzers/time_analysis.py): closed trades are bucketed by each
    time dimension, every bucket gets rates and an average, hours are
    ranked, the best and worst weekday and month are picked, and a few
    threshold rules turn the figures into recommendations. */
module TimeAnalysis {
  import opened Wrappers
  import opened Calendar
  import opened StableSort
  import opened Trades
  import opened Buckets

  // ---------------------------------------------------------------------
  // Session and period tables

  datatype Session = Asian | London | NewYork | LondonNyOverlap

  datatype DayPeriod = PreMarket | MarketOpen | Midday | Afternoon | Evening

  /** A half-open window `[start, end)` of seconds since midnight. */
  datatype Window = Window(start: int, end: int)

  predicate InWindow(x: int, w: Window) {
    w.start <= x < w.end
  }

  /** Seconds since midnight of the wall-clock time `h:m`. */
  function Clock(h: int, m: int): int {
    h * SecondsPerHour + m * SecondsPerMinute
  }

  /** The session table, in the order the lookup tries it. */
  const Sessions: seq<(Session, Window)> := [
    (Asian, Window(Clock(0, 0), Clock(8, 0))),
    (London, Window(Clock(8, 0), Clock(16, 0))),
    (NewYork, Window(Clock(13, 0), Clock(21, 0))),
    (LondonNyOverlap, Window(Clock(13, 0), Clock(16, 0)))
  ]

  /** The period table; the evening window stops at 23:59. */
  const Periods: seq<(DayPeriod, Window)> := [
    (PreMarket, Window(Clock(0, 0), Clock(8, 0))),
    (MarketOpen, Window(Clock(8, 0), Clock(12, 0))),
    (Midday, Window(Clock(12, 0), Clock(16, 0))),
    (Afternoon, Window(Clock(16, 0), Clock(20, 0))),
    (Evening, Window(Clock(20, 0), Clock(23, 59)))
  ]

  /** Entry `i` of the table contains `x` and no earlier entry does. */
  predicate FirstMatchAt<K>(table: seq<(K, Window)>, x: int, i: int) {
    && 0 <= i < |table|
    && InWindow(x, table[i].1)
    && forall k :: 0 <= k < i ==> !InWindow(x, table[k].1)
  }

  /** The name of the first window in table order that contains `x`. */
  function FirstMatch<K(==)>(table: seq<(K, Window)>, x: int): (r: Option<K>)
    ensures r.None? <==> forall i :: 0 <= i < |table| ==> !InWindow(x, table[i].1)
    ensures r.Some? ==> exists i :: FirstMatchAt(table, x, i) && table[i].0 == r.value
  {
    if |table| == 0 then None
    else if InWindow(x, table[0].1) then
      assert FirstMatchAt(table, x, 0);
      Some(table[0].0)
    else
      var r := FirstMatch(table[1..], x);
      assert forall i :: 1 <= i < |table| ==> table[i] == table[1..][i - 1];
      if r.Some? then
        var i :| FirstMatchAt(table[1..], x, i) && table[1..][i].0 == r.value;
        assert FirstMatchAt(table, x, i + 1);
        r
      else
        r
  }

  /** `_get_session`: the first session whose window holds the close time
      of day.  New York only ever gets what London left over, the overlap
      session is never chosen, and closes from 21:00 on get no session. */
  function SessionOf(t: Timestamp): (s: Option<Session>)
    ensures s == Some(Asian) <==> SecondOfDay(t) < Clock(8, 0)
    ensures s == Some(London) <==> Clock(8, 0) <= SecondOfDay(t) < Clock(16, 0)
    ensures s == Some(NewYork) <==> Clock(16, 0) <= SecondOfDay(t) < Clock(21, 0)
    ensures s != Some(LondonNyOverlap)
    ensures s.None? <==> SecondOfDay(t) >= Clock(21, 0)
  {
    SessionLookup(SecondOfDay(t));
    FirstMatch(Sessions, SecondOfDay(t))
  }

  lemma SessionLookup(x: int)
    requires 0 <= x
    ensures var s := FirstMatch(Sessions, x);
      && (s == Some(Asian) <==> x < Clock(8, 0))
      && (s == Some(London) <==> Clock(8, 0) <= x < Clock(16, 0))
      && (s == Some(NewYork) <==> Clock(16, 0) <= x < Clock(21, 0))
      && s != Some(LondonNyOverlap)
      && (s.None? <==> x >= Clock(21, 0))
  {
    var s := FirstMatch(Sessions, x);
    assert Sessions[0] == (Asian, Window(0, 28800)) && Sessions[1] == (London, Window(28800, 57600));
    assert Sessions[2] == (NewYork, Window(46800, 75600)) && Sessions[3] == (LondonNyOverlap, Window(46800, 57600));
    if s.Some? {
      var i :| FirstMatchAt(Sessions, x, i) && Sessions[i].0 == s.value;
      assert i < 3 || !InWindow(x, Sessions[1].1);
    }
  }

  /** `_get_period`: the period whose window holds the close time of day.
      The windows do not overlap and cover the day up to 23:59; the last
      minute of the day gets no period. */
  function PeriodOf(t: Timestamp): (p: Option<DayPeriod>)
    ensures p == Some(PreMarket) <==> SecondOfDay(t) < Clock(8, 0)
    ensures p == Some(MarketOpen) <==> Clock(8, 0) <= SecondOfDay(t) < Clock(12, 0)
    ensures p == Some(Midday) <==> Clock(12, 0) <= SecondOfDay(t) < Clock(16, 0)
    ensures p == Some(Afternoon) <==> Clock(16, 0) <= SecondOfDay(t) < Clock(20, 0)
    ensures p == Some(Evening) <==> Clock(20, 0) <= SecondOfDay(t) < Clock(23, 59)
    ensures p.None? <==> SecondOfDay(t) >= Clock(23, 59)
  {
    PeriodLookup(SecondOfDay(t));
    FirstMatch(Periods, SecondOfDay(t))
  }

  lemma PeriodLookup(x: int)
    requires 0 <= x
    ensures var p := FirstMatch(Periods, x);
      && (p == Some(PreMarket) <==> x < Clock(8, 0))
      && (p == Some(MarketOpen) <==> Clock(8, 0) <= x < Clock(12, 0))
      && (p == Some(Midday) <==> Clock(12, 0) <= x < Clock(16, 0))
      && (p == Some(Afternoon) <==> Clock(16, 0) <= x < Clock(20, 0))
      && (p == Some(Evening) <==> Clock(20, 0) <= x < Clock(23, 59))
      && (p.None? <==> x >= Clock(23, 59))
  {
    var p := FirstMatch(Periods, x);
    assert Periods[0] == (PreMarket, Window(0, 28800)) && Periods[1] == (MarketOpen, Window(28800, 43200));
    assert Periods[2] == (Midday, Window(43200, 57600)) && Periods[3] == (Afternoon, Window(57600, 72000));
    assert Periods[4] == (Evening, Window(72000, 86340));
    if p.Some? {
      var i :| FirstMatchAt(Periods, x, i) && Periods[i].0 == p.value;
    }
  }

  // ---------------------------------------------------------------------
  // Buckets and their derived statistics

  function HourKey(t: Trade): Option<int> {
    Some(Hour(CloseKey(t)))
  }

  function WeekdayKey(t: Trade): Option<int> {
    Some(Weekday(CloseKey(t)))
  }

  function MonthKey(t: Trade): Option<int> {
    Some(Month(CloseKey(t)))
  }

  function SessionKey(t: Trade): Option<Session> {
    SessionOf(CloseKey(t))
  }

  function PeriodKey(t: Trade): Option<DayPeriod> {
    PeriodOf(CloseKey(t))
  }

  /** One bucket as the accessors report it. */
  datatype Stats<K> = Stats(
    key: K,
    totalTrades: nat,
    wins: nat,
    losses: nat,
    winRate: real,
    lossRate: real,
    totalPnl: real,
    avgPnl: real)

  /** `_calculate_derived_stats` for one bucket, with the accessors'
      defaults for a bucket that never got a trade. */
  function StatsOf<K>(e: Entry<K>): (r: Stats<K>)
    ensures r.key == e.key && r.totalTrades == e.bucket.count && r.totalPnl == e.bucket.pnl
    ensures r.wins == e.bucket.wins && r.losses == e.bucket.losses
    ensures MeanOf(r.winRate, r.wins as real, r.totalTrades)
    ensures MeanOf(r.lossRate, r.losses as real, r.totalTrades)
    ensures MeanOf(r.avgPnl, r.totalPnl, r.totalTrades)
    ensures Consistent(e.bucket) ==> 0.0 <= r.winRate && 0.0 <= r.lossRate && r.winRate + r.lossRate <= 1.0
  {
    var b := e.bucket;
    if b.count > 0 then
      var n := b.count as real;
      RateShares(b.wins, b.losses, b.count);
      assert (b.pnl / n) * n == b.pnl;
      Stats(e.key, b.count, b.wins, b.losses, (b.wins as real) / n, (b.losses as real) / n, b.pnl, b.pnl / n)
    else
      Stats(e.key, 0, b.wins, b.losses, 0.0, 0.0, b.pnl, 0.0)
  }

  /** Win and loss rates of a non-empty bucket are non-negative shares of
      its count, and together at most the whole when wins and losses fit. */
  lemma RateShares(wins: nat, losses: nat, count: nat)
    requires count > 0
    ensures MeanOf(wins as real / count as real, wins as real, count)
    ensures MeanOf(losses as real / count as real, losses as real, count)
    ensures 0.0 <= wins as real / count as real && 0.0 <= losses as real / count as real
    ensures wins + losses <= count ==> wins as real / count as real + losses as real / count as real <= 1.0
  {
    var n := count as real;
    var w, l := wins as real / n, losses as real / n;
    assert w * n == wins as real && l * n == losses as real;
    assert (w + l) * n == (wins + losses) as real;
  }

  /** A reported bucket: at least one trade, wins and losses within it,
      both rates in [0, 1]. */
  predicate WellCounted<K>(r: Stats<K>) {
    && r.totalTrades > 0
    && r.wins + r.losses <= r.totalTrades
    && 0.0 <= r.winRate <= 1.0
    && 0.0 <= r.lossRate <= 1.0
    && MeanOf(r.winRate, r.wins as real, r.totalTrades)
    && MeanOf(r.avgPnl, r.totalPnl, r.totalTrades)
  }

  function TotalTrades<K>(rows: seq<Stats<K>>): nat {
    if |rows| == 0 then 0 else rows[0].totalTrades + TotalTrades(rows[1..])
  }

  function TotalPnl<K>(rows: seq<Stats<K>>): real {
    if |rows| == 0 then 0.0 else rows[0].totalPnl + TotalPnl(rows[1..])
  }

  function StatsTable<K>(es: seq<Entry<K>>): (r: seq<Stats<K>>)
    ensures |r| == |es|
    ensures forall i :: 0 <= i < |es| ==> r[i] == StatsOf(es[i])
    ensures TotalTrades(r) == SumCounts(es) && TotalPnl(r) == SumPnl(es)
  {
    if |es| == 0 then []
    else
      var r := [StatsOf(es[0])] + StatsTable(es[1..]);
      assert r[1..] == StatsTable(es[1..]);
      r
  }

  /** The statistics of every key in first-seen order (`by_hour`,
      `by_day_of_week`, `by_month`, `by_session`, `by_period`).  Keys are
      distinct, every bucket is well counted and equals the statistics of
      the trades carrying its key, every keyed trade has its bucket, and the
      buckets add up to the keyed trades.  `ByKeyFirstSeen` gives the row
      order. */
  function ByKey<K(==)>(closed: seq<Trade>, keyOf: Trade -> Option<K>): (r: seq<Stats<K>>)
    ensures forall i, j :: 0 <= i < j < |r| ==> r[i].key != r[j].key
    ensures forall i :: 0 <= i < |r| ==> WellCounted(r[i])
    ensures forall i :: 0 <= i < |r| ==> r[i] == StatsOf(Entry(r[i].key, Tally(closed, keyOf, r[i].key)))
    ensures forall i :: 0 <= i < |closed| && keyOf(closed[i]).Some? ==>
      exists j :: 0 <= j < |r| && r[j].key == keyOf(closed[i]).value
    ensures TotalTrades(r) == KeyedCount(closed, keyOf) && TotalPnl(r) == KeyedPnl(closed, keyOf)
  {
    var g := Group(closed, keyOf);
    var r := StatsTable(g);
    forall i | 0 <= i < |r|
      ensures r[i] == StatsOf(Entry(r[i].key, Tally(closed, keyOf, r[i].key)))
    {
      GroupIsTally(closed, keyOf, g[i].key);
    }
    forall i | 0 <= i < |closed| && keyOf(closed[i]).Some?
      ensures exists j :: 0 <= j < |r| && r[j].key == keyOf(closed[i]).value
    {
      TallyOfMember(closed, keyOf, i);
      GroupIsTally(closed, keyOf, keyOf(closed[i]).value);
      var j :| 0 <= j < |g| && g[j].key == keyOf(closed[i]).value;
      assert r[j].key == g[j].key;
    }
    r
  }

  /** The rows of a table come in the order their keys first appear among
      the trades, as the dict the source fills trade by trade. */
  lemma ByKeyFirstSeen<K>(closed: seq<Trade>, keyOf: Trade -> Option<K>)
    ensures forall i, j :: 0 <= i < j < |ByKey(closed, keyOf)| ==>
      FirstSeen(closed, keyOf, ByKey(closed, keyOf)[i].key) < FirstSeen(closed, keyOf, ByKey(closed, keyOf)[j].key)
  {
    GroupFirstSeen(closed, keyOf);
    var g := Group(closed, keyOf);
    var r := ByKey(closed, keyOf);
    assert r == StatsTable(g);
    assert forall i :: 0 <= i < |r| ==> r[i].key == g[i].key;
  }

  /** Every closed trade lands in exactly one hour, one weekday and one
      month bucket, so each of those tables holds all trades and all pnl. */
  lemma CalendarBucketsCover(closed: seq<Trade>)
    ensures TotalTrades(ByKey(closed, HourKey)) == |closed| && TotalPnl(ByKey(closed, HourKey)) == SumProfit(closed)
    ensures TotalTrades(ByKey(closed, WeekdayKey)) == |closed| && TotalPnl(ByKey(closed, WeekdayKey)) == SumProfit(closed)
    ensures TotalTrades(ByKey(closed, MonthKey)) == |closed| && TotalPnl(ByKey(closed, MonthKey)) == SumProfit(closed)
  {
    KeyedTotals(closed, HourKey);
    KeyedTotals(closed, WeekdayKey);
    KeyedTotals(closed, MonthKey);
  }

  /** No trade ever fills the London/New York overlap bucket. */
  lemma OverlapBucketNeverFilled(closed: seq<Trade>)
    ensures forall j :: 0 <= j < |ByKey(closed, SessionKey)| ==> ByKey(closed, SessionKey)[j].key != LondonNyOverlap
  {
    var r := ByKey(closed, SessionKey);
    TallyOfAbsent(closed, SessionKey, LondonNyOverlap);
    forall j | 0 <= j < |r|
      ensures r[j].key != LondonNyOverlap
    {
      assert WellCounted(r[j]);
    }
  }

  // ---------------------------------------------------------------------
  // Ranking

  /** The `(win_rate, avg_pnl)` sort key. */
  function PerfRank<K>(r: Stats<K>): Rank {
    Rank(r.winRate, r.avgPnl)
  }

  /** The same key negated: ascending on it is descending on `PerfRank`,
      and a stable sort on it keeps ties in order as `reverse=True` does. */
  function ReversedRank<K>(r: Stats<K>): Rank {
    Rank(-r.winRate, -r.avgPnl)
  }

  lemma ReversedRankFlips<K>(a: Stats<K>, b: Stats<K>)
    ensures RankLe(ReversedRank(a), ReversedRank(b)) <==> RankLe(PerfRank(b), PerfRank(a))
  {
  }

  /** Rows tie on the negated key exactly when they tie on the key itself,
      so the same rows are kept together, in the same order. */
  lemma {:induction false} ReversedTies<K>(s: seq<Stats<K>>, k: Rank)
    ensures WithKey(s, ReversedRank, Rank(-k.major, -k.minor)) == WithKey(s, PerfRank, k)
  {
    if |s| > 0 {
      ReversedTies(s[..|s| - 1], k);
    }
  }

  function Qualifying<K>(rows: seq<Stats<K>>, minTrades: nat): (r: seq<Stats<K>>)
    ensures forall i :: 0 <= i < |r| ==> r[i].totalTrades >= minTrades && r[i] in rows
    ensures forall i :: 0 <= i < |rows| && rows[i].totalTrades >= minTrades ==> rows[i] in r
  {
    Filter(rows, (x: Stats<K>) => x.totalTrades >= minTrades)
  }

  predicate Descending<K>(r: seq<Stats<K>>) {
    forall i, j :: 0 <= i < j < |r| ==> RankLe(PerfRank(r[j]), PerfRank(r[i]))
  }

  predicate Ascending<K>(r: seq<Stats<K>>) {
    forall i, j :: 0 <= i < j < |r| ==> RankLe(PerfRank(r[i]), PerfRank(r[j]))
  }

  /** A stable sort, best `(win_rate, avg_pnl)` first. */
  function SortDescending<K>(rows: seq<Stats<K>>): (r: seq<Stats<K>>)
    ensures Descending(r)
    ensures multiset(r) == multiset(rows)
    ensures KeepsTies(rows, r, PerfRank)
  {
    var r := SortOn(rows, ReversedRank);
    forall i, j | 0 <= i < j < |r|
      ensures RankLe(PerfRank(r[j]), PerfRank(r[i]))
    {
      ReversedRankFlips(r[i], r[j]);
    }
    forall k
      ensures WithKey(r, PerfRank, k) == WithKey(rows, PerfRank, k)
    {
      ReversedTies(r, k);
      ReversedTies(rows, k);
    }
    r
  }

  /** Every row has at least `minTrades` trades and is well counted. */
  predicate AllQualify<K>(rows: seq<Stats<K>>, minTrades: nat) {
    forall i :: 0 <= i < |rows| ==> rows[i].totalTrades >= minTrades && WellCounted(rows[i])
  }

  lemma PermutationQualifies<K>(a: seq<Stats<K>>, b: seq<Stats<K>>, minTrades: nat)
    requires multiset(a) == multiset(b) && AllQualify(a, minTrades)
    ensures AllQualify(b, minTrades)
  {
    forall i | 0 <= i < |b|
      ensures b[i].totalTrades >= minTrades && WellCounted(b[i])
    {
      assert b[i] in multiset(a);
      var k :| 0 <= k < |a| && a[k] == b[i];
    }
  }

  /** `_peak_hours`: the hours with at least three trades, best first by
      `(win_rate, avg_pnl)`, ties in first-seen order. */
  function PeakHours(closed: seq<Trade>): (r: seq<Stats<int>>)
    ensures AllQualify(r, 3)
    ensures Descending(r)
    ensures multiset(r) == multiset(Qualifying(ByKey(closed, HourKey), 3))
    ensures KeepsTies(Qualifying(ByKey(closed, HourKey), 3), r, PerfRank)
  {
    var rows := Qualifying(ByKey(closed, HourKey), 3);
    var r := SortDescending(rows);
    PermutationQualifies(rows, r, 3);
    r
  }

  /** `_worst_hours`: the peak-hour entries losing on average, worst first. */
  function WorstHours(peak: seq<Stats<int>>): (r: seq<Stats<int>>)
    ensures forall i :: 0 <= i < |r| ==> r[i].avgPnl < 0.0 && r[i] in peak
    ensures Ascending(r)
    ensures multiset(r) == multiset(Filter(peak, (x: Stats<int>) => x.avgPnl < 0.0))
    ensures KeepsTies(Filter(peak, (x: Stats<int>) => x.avgPnl < 0.0), r, PerfRank)
  {
    var losing := Filter(peak, (x: Stats<int>) => x.avgPnl < 0.0);
    var r := SortOn(losing, PerfRank);
    forall i | 0 <= i < |r|
      ensures r[i].avgPnl < 0.0 && r[i] in peak
    {
      assert r[i] in multiset(losing);
    }
    r
  }

  ghost predicate IsPrefix<T>(r: seq<T>, s: seq<T>) {
    |r| <= |s| && r == s[..|r|]
  }

  /** Python's `s[:limit]`: a prefix, `limit` long when that fits, and
      `-limit` short of the end for a negative `limit`. */
  function Take<T>(s: seq<T>, limit: int): (r: seq<T>)
    ensures IsPrefix(r, s)
    ensures limit >= 0 ==> |r| == if limit < |s| then limit else |s|
    ensures limit < 0 ==> |r| == if |s| + limit > 0 then |s| + limit else 0
  {
    if limit >= 0 then s[..if limit < |s| then limit else |s|]
    else s[..if |s| + limit > 0 then |s| + limit else 0]
  }

  /** A prefix of a ranked list is ranked the same way. */
  lemma PrefixKeepsRanking<K>(r: seq<Stats<K>>, s: seq<Stats<K>>)
    requires IsPrefix(r, s)
    ensures Descending(s) ==> Descending(r)
    ensures Ascending(s) ==> Ascending(r)
    ensures forall m: nat :: AllQualify(s, m) ==> AllQualify(r, m)
    ensures forall i :: 0 <= i < |r| ==> r[i] == s[i]
  {
  }

  datatype Extremes<K> = Extremes(best: Option<Stats<K>>, worst: Option<Stats<K>>)

  /** `max` and `min` by `(win_rate, avg_pnl)`: the first greatest and the
      first least row, or nothing for no rows. */
  function PickExtremes<K>(rows: seq<Stats<K>>): (e: Extremes<K>)
    ensures e.best.None? <==> |rows| == 0
    ensures e.worst.None? <==> |rows| == 0
    ensures e.best.Some? ==> e.best.value in rows && forall i :: 0 <= i < |rows| ==> RankLe(PerfRank(rows[i]), PerfRank(e.best.value))
    ensures e.worst.Some? ==> e.worst.value in rows && forall i :: 0 <= i < |rows| ==> RankLe(PerfRank(e.worst.value), PerfRank(rows[i]))
    ensures e.best.Some? && e.worst.Some? ==> RankLe(PerfRank(e.worst.value), PerfRank(e.best.value))
    ensures e.best.Some? ==> exists q :: FirstGreatest(rows, PerfRank, q) && rows[q] == e.best.value
    ensures e.worst.Some? ==> exists q :: FirstLeast(rows, PerfRank, q) && rows[q] == e.worst.value
  {
    if |rows| == 0 then Extremes(None, None)
    else
      var hi := ArgMax(rows, PerfRank);
      var lo := ArgMin(rows, PerfRank);
      assert FirstGreatest(rows, PerfRank, hi) && FirstLeast(rows, PerfRank, lo);
      Extremes(Some(rows[hi]), Some(rows[lo]))
  }

  /** Best and worst weekday (or month): only buckets with at least five
      trades compete. */
  function CalendarExtremes(closed: seq<Trade>, keyOf: Trade -> Option<int>): (e: Extremes<int>)
    ensures e.best.None? <==> forall i :: 0 <= i < |ByKey(closed, keyOf)| ==> ByKey(closed, keyOf)[i].totalTrades < 5
    ensures e.best.None? <==> e.worst.None?
    ensures e.best.Some? ==> e.best.value.totalTrades >= 5 && e.best.value in ByKey(closed, keyOf)
    ensures e.worst.Some? ==> e.worst.value.totalTrades >= 5 && e.worst.value in ByKey(closed, keyOf)
    ensures e.best.Some? ==> RankLe(PerfRank(e.worst.value), PerfRank(e.best.value))
    ensures e.best.Some? ==>
      exists q :: FirstGreatest(Qualifying(ByKey(closed, keyOf), 5), PerfRank, q) && Qualifying(ByKey(closed, keyOf), 5)[q] == e.best.value
    ensures e.worst.Some? ==>
      exists q :: FirstLeast(Qualifying(ByKey(closed, keyOf), 5), PerfRank, q) && Qualifying(ByKey(closed, keyOf), 5)[q] == e.worst.value
  {
    var rows := Qualifying(ByKey(closed, keyOf), 5);
    assert |rows| == 0 <==> forall i :: 0 <= i < |ByKey(closed, keyOf)| ==> ByKey(closed, keyOf)[i].totalTrades < 5 by {
      if |rows| > 0 {
        assert rows[0] in ByKey(closed, keyOf);
      }
    }
    PickExtremes(rows)
  }

  // ---------------------------------------------------------------------
  // The analysis and its recommendations

  /** `get_all_stats()`, without the constant session table. */
  datatype TimePattern = TimePattern(
    byHour: seq<Stats<int>>,
    byWeekday: seq<Stats<int>>,
    byMonth: seq<Stats<int>>,
    bySession: seq<Stats<Session>>,
    byPeriod: seq<Stats<DayPeriod>>,
    peakHours: seq<Stats<int>>,
    worstHours: seq<Stats<int>>,
    weekdays: Extremes<int>,
    months: Extremes<int>)

  /** The five per-key tables of a report are those of the closed trades. */
  predicate TablesOf(closed: seq<Trade>, p: TimePattern) {
    && p.byHour == ByKey(closed, HourKey)
    && p.byWeekday == ByKey(closed, WeekdayKey)
    && p.byMonth == ByKey(closed, MonthKey)
    && p.bySession == ByKey(closed, SessionKey)
    && p.byPeriod == ByKey(closed, PeriodKey)
  }

  /** `get_peak_hours(limit)`.  The ranking only exists once some trade has
      closed; before that the source fails on the missing attribute. */
  function TopPeakHours(trades: seq<Trade>, limit: int): (r: seq<Stats<int>>)
    requires |Closed(trades)| > 0
    ensures IsPrefix(r, PeakHours(Closed(trades)))
    ensures limit >= 0 ==> |r| == if limit < |PeakHours(Closed(trades))| then limit else |PeakHours(Closed(trades))|
    ensures limit < 0 ==> |r| == if |PeakHours(Closed(trades))| + limit > 0 then |PeakHours(Closed(trades))| + limit else 0
    ensures AllQualify(r, 3) && Descending(r)
  {
    var peak := PeakHours(Closed(trades));
    var r := Take(peak, limit);
    PrefixKeepsRanking(r, peak);
    r
  }

  /** `get_worst_hours(limit)`, under the same condition. */
  function TopWorstHours(trades: seq<Trade>, limit: int): (r: seq<Stats<int>>)
    requires |Closed(trades)| > 0
    ensures IsPrefix(r, WorstHours(PeakHours(Closed(trades))))
    ensures limit >= 0 ==> |r| == if limit < |WorstHours(PeakHours(Closed(trades)))| then limit else |WorstHours(PeakHours(Closed(trades)))|
    ensures limit < 0 ==> |r| == if |WorstHours(PeakHours(Closed(trades)))| + limit > 0 then |WorstHours(PeakHours(Closed(trades)))| + limit else 0
    ensures forall x :: x in r ==> x.avgPnl < 0.0 && x.totalTrades >= 3
    ensures Ascending(r)
  {
    var peak := PeakHours(Closed(trades));
    var w := WorstHours(peak);
    var r := Take(w, limit);
    PrefixKeepsRanking(r, w);
    forall x | x in r
      ensures x.avgPnl < 0.0 && x.totalTrades >= 3
    {
      var i :| 0 <= i < |r| && r[i] == x;
      assert w[i] in peak;
    }
    r
  }

  /** `TimeAnalysis(trades).get_all_stats()`, defined once a trade has closed:
      the five tables of the closed trades, the top five peak and worst
      hours, and the best and worst weekday and month. */
  function AllStats(trades: seq<Trade>): (p: TimePattern)
    requires |Closed(trades)| > 0
    ensures TablesOf(Closed(trades), p)
    ensures p.peakHours == TopPeakHours(trades, 5) && p.worstHours == TopWorstHours(trades, 5)
    ensures p.weekdays == CalendarExtremes(Closed(trades), WeekdayKey)
    ensures p.months == CalendarExtremes(Closed(trades), MonthKey)
    ensures TotalTrades(p.byHour) == |Closed(trades)| && TotalPnl(p.byHour) == SumProfit(Closed(trades))
    ensures |p.peakHours| <= 5 && |p.worstHours| <= 5
    ensures AllQualify(p.peakHours, 3) && Descending(p.peakHours)
    ensures forall x :: x in p.worstHours ==> x.avgPnl < 0.0
    ensures forall j :: 0 <= j < |p.bySession| ==> p.bySession[j].key != LondonNyOverlap
  {
    var closed := Closed(trades);
    CalendarBucketsCover(closed);
    OverlapBucketNeverFilled(closed);
    TimePattern(
      ByKey(closed, HourKey), ByKey(closed, WeekdayKey), ByKey(closed, MonthKey),
      ByKey(closed, SessionKey), ByKey(closed, PeriodKey),
      TopPeakHours(trades, 5), TopWorstHours(trades, 5),
      CalendarExtremes(closed, WeekdayKey), CalendarExtremes(closed, MonthKey))
  }

  /** Row `q` has at least five trades and a positive win rate, no row
      with five trades wins more often, and every earlier one wins less
      often: the first of the best. */
  predicate FirstBestSession(rows: seq<Stats<Session>>, q: int) {
    && 0 <= q < |rows|
    && rows[q].totalTrades >= 5 && rows[q].winRate > 0.0
    && (forall k :: 0 <= k < |rows| && rows[k].totalTrades >= 5 ==> rows[k].winRate <= rows[q].winRate)
    && (forall k :: 0 <= k < q && rows[k].totalTrades >= 5 ==> rows[k].winRate < rows[q].winRate)
  }

  /** The session loop of `recommendations`: a later session replaces the
      running best only with a strictly higher win rate, starting from 0,
      so the result is the first of the best, and nothing when no session
      with five trades wins at all. */
  function BestSession(rows: seq<Stats<Session>>): (r: Option<Stats<Session>>)
    ensures r.Some? ==> r.value in rows && r.value.totalTrades >= 5 && r.value.winRate > 0.0
    ensures forall i :: 0 <= i < |rows| && rows[i].totalTrades >= 5 ==>
      rows[i].winRate <= (if r.Some? then r.value.winRate else 0.0)
    ensures r.Some? ==> exists q :: FirstBestSession(rows, q) && rows[q] == r.value
  {
    if |rows| == 0 then None
    else
      var init := rows[..|rows| - 1];
      var b := BestSession(init);
      var row := rows[|rows| - 1];
      var bestRate := if b.Some? then b.value.winRate else 0.0;
      assert forall i :: 0 <= i < |rows| - 1 ==> rows[i] == init[i];
      if row.totalTrades >= 5 && row.winRate > bestRate then
        assert FirstBestSession(rows, |rows| - 1);
        Some(row)
      else if b.Some? then
        var q :| FirstBestSession(init, q) && init[q] == b.value;
        assert FirstBestSession(rows, q);
        b
      else b
  }

  datatype Recommendation =
    | FocusOnHour(hour: int, winRate: real, trades: nat)
    | AvoidHour(hour: int, winRate: real)
    | StrongestDay(weekday: int, winRate: real)
    | WeakestDay(weekday: int, winRate: real)
    | FocusOnSession(session: Session, winRate: real)
    | InsufficientData
    | KeepSchedule

  /** What each recommendation promises about the figures behind it. */
  predicate Sound(r: Recommendation) {
    && !r.InsufficientData? && !r.KeepSchedule?
    && (r.FocusOnHour? ==> r.winRate >= 0.6 && r.trades >= 5)
    && (r.AvoidHour? ==> r.winRate <= 0.4)
    && (r.StrongestDay? ==> r.winRate >= 0.55)
    && (r.WeakestDay? ==> r.winRate <= 0.45)
    && (r.FocusOnSession? ==> r.winRate >= 0.6 && r.session != LondonNyOverlap)
  }

  predicate AllSound(recs: seq<Recommendation>) {
    forall i :: 0 <= i < |recs| ==> Sound(recs[i])
  }

  lemma AllSoundAppend(a: seq<Recommendation>, b: seq<Recommendation>)
    requires AllSound(a) && AllSound(b)
    ensures AllSound(a + b)
  {
    forall i | 0 <= i < |a + b|
      ensures Sound((a + b)[i])
    {
      if i >= |a| {
        assert (a + b)[i] == b[i - |a|];
      }
    }
  }

  /** The peak-hour rule, on the two best ranked hours: focus on the best
      one when both exist and it wins 60% of at least five trades. */
  function FocusRule(top: seq<Stats<int>>): (recs: seq<Recommendation>)
    ensures AllSound(recs) && |recs| <= 1
    ensures |recs| == 1 <==> |top| >= 2 && top[0].winRate >= 0.6 && top[0].totalTrades >= 5
    ensures forall r :: r in recs ==> |top| >= 1 && r == FocusOnHour(top[0].key, top[0].winRate, top[0].totalTrades)
  {
    if |top| >= 2 && top[0].winRate >= 0.6 && top[0].totalTrades >= 5
    then [FocusOnHour(top[0].key, top[0].winRate, top[0].totalTrades)] else []
  }

  /** The worst-hour rule: avoid the worst losing hour when it wins at most
      40% of at least five trades. */
  function AvoidRule(worst: seq<Stats<int>>): (recs: seq<Recommendation>)
    ensures AllSound(recs) && |recs| <= 1
    ensures |recs| == 1 <==> |worst| >= 1 && worst[0].winRate <= 0.4 && worst[0].totalTrades >= 5
    ensures forall r :: r in recs ==> |worst| >= 1 && r == AvoidHour(worst[0].key, worst[0].winRate)
  {
    if |worst| >= 1 && worst[0].winRate <= 0.4 && worst[0].totalTrades >= 5
    then [AvoidHour(worst[0].key, worst[0].winRate)] else []
  }

  /** The weekday rules: praise the best day from a 55% win rate, flag the
      worst day up to a 45% win rate. */
  function DayRules(days: Extremes<int>): (recs: seq<Recommendation>)
    ensures AllSound(recs) && |recs| <= 2
    ensures days.best.None? || days.worst.None? ==> recs == []
    ensures forall i :: 0 <= i < |recs| ==>
      (recs[i].StrongestDay? && days.best.Some? && recs[i] == StrongestDay(days.best.value.key, days.best.value.winRate))
      || (recs[i].WeakestDay? && days.worst.Some? && recs[i] == WeakestDay(days.worst.value.key, days.worst.value.winRate))
    ensures days.best.Some? && days.worst.Some? ==>
      && (StrongestDay(days.best.value.key, days.best.value.winRate) in recs <==> days.best.value.winRate >= 0.55)
      && (WeakestDay(days.worst.value.key, days.worst.value.winRate) in recs <==> days.worst.value.winRate <= 0.45)
    ensures |recs| == 2 ==> recs[0].StrongestDay? && recs[1].WeakestDay?
  {
    if days.best.Some? && days.worst.Some? then
      var strong := StrongestDay(days.best.value.key, days.best.value.winRate);
      var weak := WeakestDay(days.worst.value.key, days.worst.value.winRate);
      var recs := (if days.best.value.winRate >= 0.55 then [strong] else [])
        + (if days.worst.value.winRate <= 0.45 then [weak] else []);
      assert weak != strong;
      recs
    else []
  }

  predicate OverlapFree(best: Option<Stats<Session>>) {
    best.Some? ==> best.value.key != LondonNyOverlap
  }

  /** The session rule: the best session from a 60% win rate. */
  function SessionRule(best: Option<Stats<Session>>): (recs: seq<Recommendation>)
    requires OverlapFree(best)
    ensures AllSound(recs) && |recs| <= 1
    ensures |recs| == 1 <==> best.Some? && best.value.winRate >= 0.6
    ensures forall r :: r in recs ==> best.Some? && r == FocusOnSession(best.value.key, best.value.winRate)
  {
    if best.Some? && best.value.winRate >= 0.6 then [FocusOnSession(best.value.key, best.value.winRate)] else []
  }

  /** Each piece of advice names the hour, weekday or session whose
      figures triggered it: the best ranked hour, the worst losing hour, the
      best or worst weekday, the best session. */
  predicate Grounded(closed: seq<Trade>, r: Recommendation) {
    match r
    case FocusOnHour(h, rate, _) =>
      var peak := PeakHours(closed);
      |peak| >= 2 && h == peak[0].key && rate == peak[0].winRate
    case AvoidHour(h, rate) =>
      var worst := WorstHours(PeakHours(closed));
      |worst| >= 1 && h == worst[0].key && rate == worst[0].winRate
    case StrongestDay(d, rate) =>
      var days := CalendarExtremes(closed, WeekdayKey);
      days.best.Some? && d == days.best.value.key && rate == days.best.value.winRate
    case WeakestDay(d, rate) =>
      var days := CalendarExtremes(closed, WeekdayKey);
      days.worst.Some? && d == days.worst.value.key && rate == days.worst.value.winRate
    case FocusOnSession(x, rate) =>
      var best := BestSession(ByKey(closed, SessionKey));
      best.Some? && x == best.value.key && rate == best.value.winRate
    case _ => true
  }

  lemma FocusRuleGrounded(closed: seq<Trade>)
    ensures forall r :: r in FocusRule(Take(PeakHours(closed), 2)) ==> Grounded(closed, r)
  {
    var peak := PeakHours(closed);
    var top := Take(peak, 2);
    assert |top| >= 1 ==> top[0] == peak[0];
  }

  lemma AvoidRuleGrounded(closed: seq<Trade>)
    ensures forall r :: r in AvoidRule(Take(WorstHours(PeakHours(closed)), 2)) ==> Grounded(closed, r)
  {
    var worst := WorstHours(PeakHours(closed));
    assert |Take(worst, 2)| >= 1 ==> Take(worst, 2)[0] == worst[0];
  }

  lemma DayRulesGrounded(closed: seq<Trade>)
    ensures forall r :: r in DayRules(CalendarExtremes(closed, WeekdayKey)) ==> Grounded(closed, r)
  {
  }

  lemma SessionRuleGrounded(closed: seq<Trade>)
    ensures OverlapFree(BestSession(ByKey(closed, SessionKey)))
    ensures forall r :: r in SessionRule(BestSession(ByKey(closed, SessionKey))) ==> Grounded(closed, r)
  {
    OverlapBucketNeverFilled(closed);
  }

  /** The rules of `recommendations` once some trade has closed, in order. */
  function Rules(closed: seq<Trade>): (recs: seq<Recommendation>)
    ensures AllSound(recs)
    ensures forall r :: r in recs ==> Grounded(closed, r)
  {
    var sessions := ByKey(closed, SessionKey);
    var best := BestSession(sessions);
    FocusRuleGrounded(closed);
    AvoidRuleGrounded(closed);
    DayRulesGrounded(closed);
    SessionRuleGrounded(closed);
    var peak := PeakHours(closed);
    var f := FocusRule(Take(peak, 2));
    var a := AvoidRule(Take(WorstHours(peak), 2));
    var d := DayRules(CalendarExtremes(closed, WeekdayKey));
    var x := SessionRule(best);
    AllSoundAppend(f, a);
    AllSoundAppend(f + a, d);
    AllSoundAppend(f + a + d, x);
    f + a + d + x
  }

  // ---------------------------------------------------------------------
  // When each rule fires

  /** The best of at least two ranked hours wins 60% of five or more trades. */
  predicate FocusFires(peak: seq<Stats<int>>) {
    |peak| >= 2 && peak[0].winRate >= 0.6 && peak[0].totalTrades >= 5
  }

  /** The worst losing hour wins at most 40% of five or more trades. */
  predicate AvoidFires(worst: seq<Stats<int>>) {
    |worst| >= 1 && worst[0].winRate <= 0.4 && worst[0].totalTrades >= 5
  }

  /** Both weekday extremes exist and the best wins at least 55%. */
  predicate StrongDayFires(days: Extremes<int>) {
    days.best.Some? && days.worst.Some? && days.best.value.winRate >= 0.55
  }

  /** Both weekday extremes exist and the worst wins at most 45%. */
  predicate WeakDayFires(days: Extremes<int>) {
    days.best.Some? && days.worst.Some? && days.worst.value.winRate <= 0.45
  }

  /** The best session wins at least 60%. */
  predicate SessionFires(best: Option<Stats<Session>>) {
    best.Some? && best.value.winRate >= 0.6
  }

  function OneIf(b: bool): nat {
    if b then 1 else 0
  }

  /** The position of each kind of advice in the rule list. */
  function KindRank(r: Recommendation): nat {
    match r
    case FocusOnHour(_, _, _) => 0
    case AvoidHour(_, _) => 1
    case StrongestDay(_, _) => 2
    case WeakestDay(_, _) => 3
    case FocusOnSession(_, _) => 4
    case _ => 5
  }

  /** Every rule whose threshold holds contributes exactly one piece of
      advice of its own kind and no other rule contributes any, so there
      is no advice at all exactly when no threshold holds; the advice comes
      in the order the rules are tried. */
  predicate FiresExactly(recs: seq<Recommendation>, peak: seq<Stats<int>>, worst: seq<Stats<int>>,
                         days: Extremes<int>, best: Option<Stats<Session>>)
  {
    && |recs| == OneIf(FocusFires(peak)) + OneIf(AvoidFires(worst))
       + OneIf(StrongDayFires(days)) + OneIf(WeakDayFires(days)) + OneIf(SessionFires(best))
    && (recs == [] <==>
         !FocusFires(peak) && !AvoidFires(worst) && !StrongDayFires(days) && !WeakDayFires(days) && !SessionFires(best))
    && ((exists r :: r in recs && r.FocusOnHour?) <==> FocusFires(peak))
    && ((exists r :: r in recs && r.AvoidHour?) <==> AvoidFires(worst))
    && ((exists r :: r in recs && r.StrongestDay?) <==> StrongDayFires(days))
    && ((exists r :: r in recs && r.WeakestDay?) <==> WeakDayFires(days))
    && ((exists r :: r in recs && r.FocusOnSession?) <==> SessionFires(best))
    && (forall i, j :: 0 <= i < j < |recs| ==> KindRank(recs[i]) < KindRank(recs[j]))
  }

  /** The rules of a journal fire exactly on the thresholds of its ranked
      hours, weekday extremes and best session. */
  lemma RulesComplete(closed: seq<Trade>)
    ensures FiresExactly(Rules(closed), PeakHours(closed), WorstHours(PeakHours(closed)),
                         CalendarExtremes(closed, WeekdayKey), BestSession(ByKey(closed, SessionKey)))
  {
    SessionRuleGrounded(closed);
    var peak := PeakHours(closed);
    var worst := WorstHours(peak);
    var days := CalendarExtremes(closed, WeekdayKey);
    var best := BestSession(ByKey(closed, SessionKey));
    assert Rules(closed) == RuleList(peak, worst, days, best);
    RuleListComplete(peak, worst, days, best);
  }

  /** The four rules applied to the ranked hours, the weekday extremes and
      the best session, in the order `recommendations` tries them. */
  function RuleList(peak: seq<Stats<int>>, worst: seq<Stats<int>>, days: Extremes<int>, best: Option<Stats<Session>>): seq<Recommendation>
    requires OverlapFree(best)
  {
    FocusRule(Take(peak, 2)) + AvoidRule(Take(worst, 2)) + DayRules(days) + SessionRule(best)
  }

  lemma RuleListComplete(peak: seq<Stats<int>>, worst: seq<Stats<int>>, days: Extremes<int>, best: Option<Stats<Session>>)
    requires OverlapFree(best)
    ensures FiresExactly(RuleList(peak, worst, days, best), peak, worst, days, best)
  {
    var f := FocusRule(Take(peak, 2));
    var a := AvoidRule(Take(worst, 2));
    var d := DayRules(days);
    var x := SessionRule(best);
    assert |Take(peak, 2)| >= 1 ==> Take(peak, 2)[0] == peak[0];
    assert |Take(worst, 2)| >= 1 ==> Take(worst, 2)[0] == worst[0];
    DayRulesFire(days);
    RulesKinds(f, a, d, x);
  }

  /** The weekday rules give one piece of advice per threshold that holds,
      each of its own kind. */
  lemma DayRulesFire(days: Extremes<int>)
    ensures var d := DayRules(days);
      && |d| == OneIf(StrongDayFires(days)) + OneIf(WeakDayFires(days))
      && ((exists r :: r in d && r.StrongestDay?) <==> StrongDayFires(days))
      && ((exists r :: r in d && r.WeakestDay?) <==> WeakDayFires(days))
  {
  }

  /** The kind of each position of the joined advice. */
  lemma KindsInOrder(f: seq<Recommendation>, a: seq<Recommendation>, d: seq<Recommendation>, x: seq<Recommendation>)
    requires forall r :: r in f ==> r.FocusOnHour?
    requires forall r :: r in a ==> r.AvoidHour?
    requires forall r :: r in x ==> r.FocusOnSession?
    ensures var recs := f + a + d + x;
      forall i :: 0 <= i < |recs| ==>
        KindRank(recs[i]) == if i < |f| then 0 else if i < |f| + |a| then 1
          else if i < |f| + |a| + |d| then KindRank(d[i - |f| - |a|]) else 4
  {
  }

  /** Advice lists of one kind each, joined in rule order, hold each kind
      exactly when its part is non-empty, in increasing kind order. */
  lemma RulesKinds(f: seq<Recommendation>, a: seq<Recommendation>, d: seq<Recommendation>, x: seq<Recommendation>)
    requires |f| <= 1 && |a| <= 1 && |x| <= 1
    requires forall r :: r in f ==> r.FocusOnHour?
    requires forall r :: r in a ==> r.AvoidHour?
    requires forall r :: r in d ==> r.StrongestDay? || r.WeakestDay?
    requires |d| <= 2 && (|d| == 2 ==> d[0].StrongestDay? && d[1].WeakestDay?)
    requires forall r :: r in x ==> r.FocusOnSession?
    ensures var recs := f + a + d + x;
      && ((exists r :: r in recs && r.FocusOnHour?) <==> |f| == 1)
      && ((exists r :: r in recs && r.AvoidHour?) <==> |a| == 1)
      && ((exists r :: r in recs && r.StrongestDay?) <==> (exists r :: r in d && r.StrongestDay?))
      && ((exists r :: r in recs && r.WeakestDay?) <==> (exists r :: r in d && r.WeakestDay?))
      && ((exists r :: r in recs && r.FocusOnSession?) <==> |x| == 1)
      && (forall i, j :: 0 <= i < j < |recs| ==> KindRank(recs[i]) < KindRank(recs[j]))
  {
    HourKinds(f, a, d, x);
    DayKinds(f, a, d, x);
    KindsAscend(f, a, d, x);
  }

  lemma HourKinds(f: seq<Recommendation>, a: seq<Recommendation>, d: seq<Recommendation>, x: seq<Recommendation>)
    requires |f| <= 1 && |a| <= 1
    requires forall r :: r in f ==> r.FocusOnHour?
    requires forall r :: r in a ==> r.AvoidHour?
    requires forall r :: r in d ==> r.StrongestDay? || r.WeakestDay?
    requires forall r :: r in x ==> r.FocusOnSession?
    ensures var recs := f + a + d + x;
      && ((exists r :: r in recs && r.FocusOnHour?) <==> |f| == 1)
      && ((exists r :: r in recs && r.AvoidHour?) <==> |a| == 1)
  {
    var recs := f + a + d + x;
    if r :| r in recs && (r.FocusOnHour? || r.AvoidHour?) {
      assert r in f || r in a || r in d || r in x;
    }
    if |f| == 1 {
      assert recs[0] == f[0] && f[0] in f && recs[0] in recs;
    }
    if |a| == 1 {
      assert recs[|f|] == a[0] && a[0] in a && recs[|f|] in recs;
    }
  }

  lemma DayKinds(f: seq<Recommendation>, a: seq<Recommendation>, d: seq<Recommendation>, x: seq<Recommendation>)
    requires |x| <= 1
    requires forall r :: r in f ==> r.FocusOnHour?
    requires forall r :: r in a ==> r.AvoidHour?
    requires forall r :: r in d ==> r.StrongestDay? || r.WeakestDay?
    requires forall r :: r in x ==> r.FocusOnSession?
    ensures var recs := f + a + d + x;
      && ((exists r :: r in recs && r.StrongestDay?) <==> (exists r :: r in d && r.StrongestDay?))
      && ((exists r :: r in recs && r.WeakestDay?) <==> (exists r :: r in d && r.WeakestDay?))
      && ((exists r :: r in recs && r.FocusOnSession?) <==> |x| == 1)
  {
    var recs := f + a + d + x;
    if r :| r in recs && (r.StrongestDay? || r.WeakestDay? || r.FocusOnSession?) {
      assert r in f || r in a || r in d || r in x;
    }
    if r :| r in d && (r.StrongestDay? || r.WeakestDay?) {
      assert r in recs;
    }
    if |x| == 1 {
      assert recs[|f| + |a| + |d|] == x[0] && x[0] in x && recs[|f| + |a| + |d|] in recs;
    }
  }

  /** One piece of advice per kind, so the kinds strictly increase. */
  lemma KindsAscend(f: seq<Recommendation>, a: seq<Recommendation>, d: seq<Recommendation>, x: seq<Recommendation>)
    requires |f| <= 1 && |a| <= 1 && |x| <= 1
    requires forall r :: r in f ==> r.FocusOnHour?
    requires forall r :: r in a ==> r.AvoidHour?
    requires forall r :: r in d ==> r.StrongestDay? || r.WeakestDay?
    requires |d| <= 2 && (|d| == 2 ==> d[0].StrongestDay? && d[1].WeakestDay?)
    requires forall r :: r in x ==> r.FocusOnSession?
    ensures var recs := f + a + d + x;
      forall i, j :: 0 <= i < j < |recs| ==> KindRank(recs[i]) < KindRank(recs[j])
  {
    var recs := f + a + d + x;
    KindsInOrder(f, a, d, x);
    forall k | 0 <= k < |d|
      ensures 2 <= KindRank(d[k]) <= 3
    {
      assert d[k] in d;
    }
    forall i, j | 0 <= i < j < |recs|
      ensures KindRank(recs[i]) < KindRank(recs[j])
    {
      if |f| + |a| <= i && j < |f| + |a| + |d| {
        assert i - |f| - |a| == 0 && j - |f| - |a| == 1;
      }
    }
  }

  /** The fallback of `recommendations`: the "continue" message stands in
      for an empty rule list, and only then. */
  function OrKeep(recs: seq<Recommendation>): (r: seq<Recommendation>)
    requires AllSound(recs)
    ensures |r| >= 1 && r != [InsufficientData]
    ensures forall i :: 0 <= i < |r| && r[i].KeepSchedule? ==> r == [KeepSchedule]
    ensures r == recs || (r == [KeepSchedule] && recs == [])
  {
    if |recs| == 0 then [KeepSchedule]
    else
      assert Sound(recs[0]);
      recs
  }

  /** `recommendations()`: never empty; the "insufficient data" message
      exactly when no trade has closed, and the "continue" message alone
      when no rule fires. */
  function Recommendations(trades: seq<Trade>): (recs: seq<Recommendation>)
    ensures |recs| >= 1
    ensures recs == [InsufficientData] <==> |Closed(trades)| == 0
    ensures forall i :: 0 <= i < |recs| && recs[i].KeepSchedule? ==> recs == [KeepSchedule]
    ensures |Closed(trades)| > 0 ==> recs == Rules(Closed(trades)) || (recs == [KeepSchedule] && Rules(Closed(trades)) == [])
  {
    var closed := Closed(trades);
    if |closed| == 0 then [InsufficientData]
    else OrKeep(Rules(closed))
  }
}
