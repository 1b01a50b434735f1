/** Worked examples: small concrete journals run through the model, in the
    shape of the repository's own test scenarios. */
module Scenarios {
  import opened Wrappers
  import opened Trades
  import opened StableSort
  import BasicStats
  import Drawdown

  function Pt(time: int, balance: real): Drawdown.EquityPoint {
    Drawdown.EquityPoint(time, balance)
  }

  // The walk over the curve 100, 150, 110, 160, 100 (one point a minute),
  // one point at a time.

  lemma DipsWalk1()
    ensures Drawdown.WalkCurve([Pt(0, 100.0)], 100.0) == Drawdown.WalkState(100.0, 0, 0, 100.0, false, [])
  {
  }

  lemma DipsWalk2()
    ensures Drawdown.WalkCurve([Pt(0, 100.0), Pt(60, 150.0)], 100.0)
         == Drawdown.WalkState(150.0, 60, 0, 150.0, false, [])
  {
    DipsWalk1();
    assert [Pt(0, 100.0), Pt(60, 150.0)][..1] == [Pt(0, 100.0)];
  }

  lemma DipsWalk3()
    ensures Drawdown.WalkCurve([Pt(0, 100.0), Pt(60, 150.0), Pt(120, 110.0)], 100.0)
         == Drawdown.WalkState(150.0, 60, 60, 110.0, true, [])
  {
    DipsWalk2();
    assert [Pt(0, 100.0), Pt(60, 150.0), Pt(120, 110.0)][..2] == [Pt(0, 100.0), Pt(60, 150.0)];
  }

  lemma DipsWalk4()
    ensures Drawdown.WalkCurve([Pt(0, 100.0), Pt(60, 150.0), Pt(120, 110.0), Pt(180, 160.0)], 100.0)
         == Drawdown.WalkState(160.0, 180, 60, 160.0, false, [Drawdown.NewPeriod(60, 150.0, 110.0, 180, true)])
  {
    DipsWalk3();
    assert [Pt(0, 100.0), Pt(60, 150.0), Pt(120, 110.0), Pt(180, 160.0)][..3]
        == [Pt(0, 100.0), Pt(60, 150.0), Pt(120, 110.0)];
  }

  lemma DipsWalk5()
    ensures Drawdown.WalkCurve([Pt(0, 100.0), Pt(60, 150.0), Pt(120, 110.0), Pt(180, 160.0), Pt(240, 100.0)], 100.0)
         == Drawdown.WalkState(160.0, 180, 180, 100.0, true, [Drawdown.NewPeriod(60, 150.0, 110.0, 180, true)])
  {
    var c := [Pt(0, 100.0), Pt(60, 150.0), Pt(120, 110.0), Pt(180, 160.0), Pt(240, 100.0)];
    var w4 := Drawdown.WalkState(160.0, 180, 60, 160.0, false, [Drawdown.NewPeriod(60, 150.0, 110.0, 180, true)]);
    assert Drawdown.WalkCurve(c[..4], 100.0) == w4 by {
      DipsWalk4();
      assert c[..4] == [Pt(0, 100.0), Pt(60, 150.0), Pt(120, 110.0), Pt(180, 160.0)];
    }
    Drawdown.WalkLast(c, 100.0);
    assert c[4] == Pt(240, 100.0);
  }

  /** A return to exactly the peak of 150 leaves the walk where it was. */
  lemma BackToPeakWalk()
    ensures Drawdown.WalkCurve([Pt(0, 100.0), Pt(60, 150.0), Pt(120, 110.0), Pt(180, 150.0)], 100.0)
         == Drawdown.WalkState(150.0, 60, 60, 110.0, true, [])
  {
    DipsWalk3();
    assert [Pt(0, 100.0), Pt(60, 150.0), Pt(120, 110.0), Pt(180, 150.0)][..3]
        == [Pt(0, 100.0), Pt(60, 150.0), Pt(120, 110.0)];
  }

  /** Rise to 150, fall to 110, recover to a new peak of 160, fall to 100:
      one recovered period 40 deep and one open period 60 deep. */
  lemma TwoDrawdownPeriods()
    ensures
      var c := [Pt(0, 100.0), Pt(60, 150.0), Pt(120, 110.0), Pt(180, 160.0), Pt(240, 100.0)];
      var ps := Drawdown.IdentifyPeriods(c, 100.0);
      && |ps| == 2
      && ps[0].depth == 40.0 && ps[0].recovery == Some(180) && ps[0].start == 60
      && ps[1].depth == 60.0 && ps[1].end.None? && ps[1].start == 180 && ps[1].duration == 60
  {
    DipsWalk5();
  }

  lemma DipsPeak()
    ensures Drawdown.PeakBalance([Pt(0, 100.0), Pt(60, 150.0), Pt(120, 110.0), Pt(180, 160.0), Pt(240, 100.0)]) == 160.0
  {
    var c := [Pt(0, 100.0), Pt(60, 150.0), Pt(120, 110.0), Pt(180, 160.0), Pt(240, 100.0)];
    assert c[3].balance <= Drawdown.PeakBalance(c);
  }

  lemma DipsDepthTotal()
    ensures Drawdown.SumDepths(Drawdown.IdentifyPeriods(
      [Pt(0, 100.0), Pt(60, 150.0), Pt(120, 110.0), Pt(180, 160.0), Pt(240, 100.0)], 100.0)) == 100.0
  {
    TwoDrawdownPeriods();
    var ps := Drawdown.IdentifyPeriods([Pt(0, 100.0), Pt(60, 150.0), Pt(120, 110.0), Pt(180, 160.0), Pt(240, 100.0)], 100.0);
    assert ps[..1][..0] == [] && ps[..|ps| - 1] == ps[..1];
  }

  /** The same curve summarised: 60 below the peak of 160, in drawdown, and
      the deepest period is the open one. */
  lemma TwoDrawdownPeriodsSummary()
    ensures
      var c := [Pt(0, 100.0), Pt(60, 150.0), Pt(120, 110.0), Pt(180, 160.0), Pt(240, 100.0)];
      var a := Drawdown.AnalyzeCurve(c, 100.0);
      && a.currentDrawdown == 60.0 && a.isInDrawdown
      && a.maxDrawdown == 60.0 && a.averageDrawdown == 50.0
  {
    TwoDrawdownPeriods();
    DipsPeak();
    DipsDepthTotal();
  }

  /** A balance that climbs back exactly to the peak without passing it
      does not end the drawdown: the period stays open although the
      current drawdown is zero and the account is reported as not in
      drawdown. */
  lemma ExactRecoveryLeavesPeriodOpen()
    ensures
      var c := [Pt(0, 100.0), Pt(60, 150.0), Pt(120, 110.0), Pt(180, 150.0)];
      var a := Drawdown.AnalyzeCurve(c, 100.0);
      && |a.periods| == 1 && a.periods[0].end.None?
      && a.currentDrawdown == 0.0 && !a.isInDrawdown
  {
    var c := [Pt(0, 100.0), Pt(60, 150.0), Pt(120, 110.0), Pt(180, 150.0)];
    BackToPeakWalk();
    var ps := Drawdown.IdentifyPeriods(c, 100.0);
    assert ps == [Drawdown.NewPeriod(60, 150.0, 110.0, 180, false)];
    var peak := Drawdown.PeakBalance(c);
    assert peak == 150.0 by {
      assert c[1].balance <= peak;
    }
  }

  /** A closed EURUSD trade opened an hour before it closed. */
  function ClosedTrade(ticket: int, profit: real, closeTime: int): Trade {
    Trade(ticket, "EURUSD", "BUY", 0.1, closeTime - 3600, 1.0, Some(closeTime), Some(1.0),
          None, None, 0.0, 0.0, profit, None, None)
  }

  /** One closed trade per profit, a minute apart, in the given order. */
  function Ladder(profits: seq<real>): (s: seq<Trade>)
    ensures |s| == |profits|
    ensures forall i :: 0 <= i < |s| ==> s[i] == ClosedTrade(i + 1, profits[i], 60 * (i + 1))
  {
    seq(|profits|, i requires 0 <= i < |profits| => ClosedTrade(i + 1, profits[i], 60 * (i + 1)))
  }

  lemma {:induction false} FilterKeepsAll(s: seq<Trade>, p: Trade -> bool)
    requires forall i :: 0 <= i < |s| ==> p(s[i])
    ensures Filter(s, p) == s
  {
    if |s| > 0 {
      FilterKeepsAll(s[..|s| - 1], p);
      assert s == s[..|s| - 1] + [s[|s| - 1]];
    }
  }

  /** A ladder is its own closed, close-time ordered list. */
  lemma LadderInOrder(profits: seq<real>)
    ensures ByCloseTime(Closed(Ladder(profits))) == Ladder(profits)
  {
    var s := Ladder(profits);
    FilterKeepsAll(s, IsClosed);
    assert SortedOn(s, CloseRank);
    SortOnSorted(s, CloseRank);
  }

  const StreakProfits: seq<real> := [10.0, 5.0, 0.0, -1.0, -2.0, -3.0, 4.0]

  /** Win, win, breakeven, loss, loss, loss, win: the breakeven trade ends
      the win streak, so the longest streaks are two wins and three losses. */
  lemma BreakevenResetsStreaks()
    ensures BasicStats.Consecutive(Closed(Ladder(StreakProfits))) == (2, 3)
  {
    var s := Ladder(StreakProfits);
    LadderInOrder(StreakProfits);
    var r := BasicStats.Consecutive(Closed(s));
    StreakWins(s);
    StreakLosses(s);
    BasicStats.LongestRunUnique(s, IsWin, r.0, 2);
    BasicStats.LongestRunUnique(s, IsLoss, r.1, 3);
  }

  lemma StreakWins(s: seq<Trade>)
    requires s == Ladder(StreakProfits)
    ensures BasicStats.LongestRun(s, IsWin, 2)
  {
    assert s[2].profit == 0.0 && s[3].profit == -1.0 && s[4].profit == -2.0 && s[5].profit == -3.0;
    forall i, j | BasicStats.RunOf(s, i, j, IsWin)
      ensures j - i <= 2
    {
      assert i <= 2 < j ==> IsWin(s[2]);
      assert i <= 3 < j ==> IsWin(s[3]);
      assert i <= 4 < j ==> IsWin(s[4]);
      assert i <= 5 < j ==> IsWin(s[5]);
    }
    assert s[0].profit == 10.0 && s[1].profit == 5.0;
    assert BasicStats.RunAt(s, 0, 2, IsWin);
  }

  lemma StreakLosses(s: seq<Trade>)
    requires s == Ladder(StreakProfits)
    ensures BasicStats.LongestRun(s, IsLoss, 3)
  {
    assert s[2].profit == 0.0 && s[1].profit == 5.0 && s[6].profit == 4.0;
    forall i, j | BasicStats.RunOf(s, i, j, IsLoss)
      ensures j - i <= 3
    {
      assert i <= 2 < j ==> IsLoss(s[2]);
      assert i <= 6 < j ==> IsLoss(s[6]);
    }
    assert s[3].profit == -1.0 && s[4].profit == -2.0 && s[5].profit == -3.0;
    assert BasicStats.RunAt(s, 3, 3, IsLoss);
  }
}
