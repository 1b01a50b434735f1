/** The performance scorer (src/analyzers/performance_scorer.py): three
    component scores drawn from the basic statistics, their weighted
    overall score and letter grade, the strengths / weaknesses /
    recommendations sets, and the grade of each single trade. */
module PerformanceScorer {
  import opened Wrappers
  import opened Trades
  import BasicStats

  // ---------------------------------------------------------------------
  // Component scores
  // ---------------------------------------------------------------------

  /** `_calculate_win_rate_score`: four linear bands meeting at 40%, 50% and
      60%.  Nothing caps the top band, so a win rate above 70% scores above
      100. */
  function WinRateScore(winRate: real): (s: real)
    ensures winRate >= 0.6 ==> s >= 90.0
    ensures 0.5 <= winRate < 0.6 ==> 70.0 <= s < 90.0
    ensures 0.4 <= winRate < 0.5 ==> 50.0 <= s < 70.0
    ensures 0.0 <= winRate < 0.4 ==> 30.0 <= s < 50.0
    ensures winRate > 0.7 ==> s > 100.0
    ensures winRate <= 1.0 ==> s <= 130.0
  {
    if winRate >= 0.6 then 90.0 + (winRate - 0.6) * 100.0
    else if winRate >= 0.5 then 70.0 + ((winRate - 0.5) / 0.1) * 20.0
    else if winRate >= 0.4 then 50.0 + ((winRate - 0.4) / 0.1) * 20.0
    else 30.0 + (winRate / 0.4) * 20.0
  }

  /** The win-rate score never falls as the win rate rises, and never rises
      by more than 200 points per unit of win rate: the bands join without
      a jump. */
  lemma WinRateScoreContinuous(a: real, b: real)
    requires a <= b
    ensures 0.0 <= WinRateScore(b) - WinRateScore(a) <= 200.0 * (b - a)
  {
    var x1 := Max(a, Min(b, 0.4));
    var x2 := Max(a, Min(b, 0.5));
    var x3 := Max(a, Min(b, 0.6));
    WithinBand(a, x1);
    WithinBand(x1, x2);
    WithinBand(x2, x3);
    WithinBand(x3, b);
  }

  /** The continuity bound on a stretch that crosses no band edge. */
  lemma WithinBand(a: real, b: real)
    requires a <= b
    requires b <= 0.4 || (0.4 <= a && b <= 0.5) || (0.5 <= a && b <= 0.6) || 0.6 <= a
    ensures 0.0 <= WinRateScore(b) - WinRateScore(a) <= 200.0 * (b - a)
  {
  }

  /** The risk-reward ratio `avg_win / avg_loss`, infinite when there is no
      average loss. */
  function RewardRatio(avgWin: real, avgLoss: real): (r: Ext)
    ensures r.Unbounded? <==> avgLoss == 0.0
    ensures r.Finite? ==> QuotientOf(r.value, avgWin, avgLoss)
  {
    if avgLoss != 0.0 then Finite(avgWin / avgLoss) else Unbounded
  }

  /** The expectancy part of `_calculate_risk_score`: 50 at zero, rising to
      100 at an expectancy of 100, falling to a floor of 10. */
  function ExpectancyScore(expectancy: real): (s: real)
    ensures 10.0 <= s <= 100.0
    ensures s > 50.0 <==> expectancy > 0.0
    ensures s < 50.0 <==> expectancy < 0.0
    ensures expectancy >= 100.0 ==> s == 100.0
    ensures expectancy <= -400.0 ==> s == 10.0
  {
    if expectancy > 0.0 then 50.0 + Min(Min(expectancy / 100.0, 1.0) * 50.0, 50.0)
    else if expectancy < 0.0 then Max(10.0, 50.0 + expectancy * 0.1)
    else 50.0
  }

  lemma ExpectancyScoreMonotone(a: real, b: real)
    requires a <= b
    ensures ExpectancyScore(a) <= ExpectancyScore(b)
  {
  }

  /** The risk-reward adjustment: +20 from a ratio of 2, +10 from 1.5, +5
      from 1, otherwise a 10 point penalty. */
  function RewardBonus(ratio: Ext): (b: real)
    ensures b == 20.0 <==> AtLeast(ratio, 2.0)
    ensures b == 10.0 <==> AtLeast(ratio, 1.5) && !AtLeast(ratio, 2.0)
    ensures b == 5.0 <==> AtLeast(ratio, 1.0) && !AtLeast(ratio, 1.5)
    ensures b == -10.0 <==> !AtLeast(ratio, 1.0)
  {
    if AtLeast(ratio, 2.0) then 20.0
    else if AtLeast(ratio, 1.5) then 10.0
    else if AtLeast(ratio, 1.0) then 5.0
    else -10.0
  }

  lemma RewardBonusMonotone(a: Ext, b: Ext)
    requires ExtLe(a, b)
    ensures RewardBonus(a) <= RewardBonus(b)
  {
  }

  /** `_calculate_risk_score`: expectancy score plus risk-reward bonus,
      clamped to [0, 100].  Without an average loss the ratio counts as
      infinite and earns the full bonus. */
  function RiskScore(expectancy: real, avgWin: real, avgLoss: real): (s: real)
    ensures 0.0 <= s <= 100.0
    ensures avgLoss == 0.0 ==> s == Min(100.0, ExpectancyScore(expectancy) + 20.0)
    ensures expectancy >= 100.0 && AtLeast(RewardRatio(avgWin, avgLoss), 1.0) ==> s == 100.0
  {
    var total := ExpectancyScore(expectancy) + RewardBonus(RewardRatio(avgWin, avgLoss));
    Max(0.0, Min(100.0, total))
  }

  /** A better expectancy never lowers the risk score, nor does a better
      risk-reward ratio. */
  lemma RiskScoreMonotone(e1: real, e2: real, w1: real, l1: real, w2: real, l2: real)
    requires e1 <= e2
    requires ExtLe(RewardRatio(w1, l1), RewardRatio(w2, l2))
    ensures RiskScore(e1, w1, l1) <= RiskScore(e2, w2, l2)
  {
    ExpectancyScoreMonotone(e1, e2);
    RewardBonusMonotone(RewardRatio(w1, l1), RewardRatio(w2, l2));
  }

  /** `_calculate_profit_factor_score`: bands from 2.0, 1.5 and 1.2, and
      below 1.2 thirty points per unit with a floor of 10, so the score
      jumps from under 36 to 50 at 1.2.  The top band is uncapped and the
      infinite profit factor scores infinitely. */
  function ProfitFactorScore(pf: Ext): (s: Ext)
    ensures s.Unbounded? <==> pf.Unbounded?
    ensures AtLeast(s, 10.0)
    ensures pf.Finite? && pf.value >= 2.0 ==> s.value >= 90.0
    ensures pf.Finite? && 1.5 <= pf.value < 2.0 ==> 70.0 <= s.value < 90.0
    ensures pf.Finite? && 1.2 <= pf.value < 1.5 ==> 50.0 <= s.value < 70.0
    ensures pf.Finite? && pf.value < 1.2 ==> 10.0 <= s.value < 36.0
    ensures pf.Finite? && pf.value > 4.0 ==> s.value > 100.0
  {
    match pf
    case Unbounded => Unbounded
    case Finite(v) =>
      if v >= 2.0 then Finite(90.0 + ((v - 2.0) / 2.0) * 10.0)
      else if v >= 1.5 then Finite(70.0 + ((v - 1.5) / 0.5) * 20.0)
      else if v >= 1.2 then Finite(50.0 + ((v - 1.2) / 0.3) * 20.0)
      else Finite(Max(10.0, v * 30.0))
  }

  /** A larger profit factor never scores lower. */
  lemma {:induction false} ProfitFactorScoreMonotone(a: Ext, b: Ext)
    requires ExtLe(a, b)
    ensures ExtLe(ProfitFactorScore(a), ProfitFactorScore(b))
  {
    if a.Finite? && b.Finite? {
      var x, y := a.value, b.value;
      if x < 1.2 && y >= 1.2 {
        assert ProfitFactorScore(a).value < 36.0;
      } else if x < 1.5 && y >= 1.5 {
        assert ProfitFactorScore(a).value < 70.0;
      } else if x < 2.0 && y >= 2.0 {
        assert ProfitFactorScore(a).value < 90.0;
      }
    }
  }

  /** The 0.4 / 0.3 / 0.3 weighting of `calculate_overall_score`: a
      weighted mean, so it lies between the smallest and the largest
      component, and is infinite exactly when the profit-factor score is. */
  function Weighted(winRateScore: real, riskScore: real, pfScore: Ext): (s: Ext)
    ensures s.Unbounded? <==> pfScore.Unbounded?
    ensures pfScore.Finite? ==>
      Min(winRateScore, Min(riskScore, pfScore.value)) <= s.value <= Max(winRateScore, Max(riskScore, pfScore.value))
  {
    match pfScore
    case Unbounded => Unbounded
    case Finite(p) => Finite(winRateScore * 0.4 + riskScore * 0.3 + p * 0.3)
  }

  /** The weights themselves: the zero components score zero, and raising
      the win-rate score by `d` raises the overall score by `0.4 * d`, the
      risk or profit-factor score by `0.3 * d`.  Together these fix the
      weighted sum. */
  lemma WeightedSlopes(w: real, r: real, p: real, d: real)
    ensures Weighted(0.0, 0.0, Finite(0.0)) == Finite(0.0)
    ensures Weighted(w + d, r, Finite(p)).value == Weighted(w, r, Finite(p)).value + 0.4 * d
    ensures Weighted(w, r + d, Finite(p)).value == Weighted(w, r, Finite(p)).value + 0.3 * d
    ensures Weighted(w, r, Finite(p + d)).value == Weighted(w, r, Finite(p)).value + 0.3 * d
  {
  }

  /** A higher component never lowers the overall score. */
  lemma WeightedMonotone(w1: real, r1: real, p1: Ext, w2: real, r2: real, p2: Ext)
    requires w1 <= w2 && r1 <= r2 && ExtLe(p1, p2)
    ensures ExtLe(Weighted(w1, r1, p1), Weighted(w2, r2, p2))
  {
  }

  // ---------------------------------------------------------------------
  // Letter grades
  // ---------------------------------------------------------------------

  datatype Letter = A | B | C | D | F

  /** Position of a letter, F lowest. */
  function LetterRank(g: Letter): nat {
    match g
    case A => 4
    case B => 3
    case C => 2
    case D => 1
    case F => 0
  }

  /** `_get_letter_grade`: inclusive lower bounds 90, 80, 70 and 60. */
  function LetterGrade(score: Ext): (g: Letter)
    ensures g == A <==> AtLeast(score, 90.0)
    ensures g == B <==> score.Finite? && 80.0 <= score.value < 90.0
    ensures g == C <==> score.Finite? && 70.0 <= score.value < 80.0
    ensures g == D <==> score.Finite? && 60.0 <= score.value < 70.0
    ensures g == F <==> score.Finite? && score.value < 60.0
  {
    if AtLeast(score, 90.0) then A
    else if score.value >= 80.0 then B
    else if score.value >= 70.0 then C
    else if score.value >= 60.0 then D
    else F
  }

  /** A higher score never earns a lower letter. */
  lemma LetterGradeMonotone(a: Ext, b: Ext)
    requires ExtLe(a, b)
    ensures LetterRank(LetterGrade(a)) <= LetterRank(LetterGrade(b))
  {
  }

  // ---------------------------------------------------------------------
  // Insights
  // ---------------------------------------------------------------------

  datatype Strength =
    | ExcellentWinRate
    | GoodWinRate
    | StrongProfitFactor
    | DecentProfitFactor
    | PositiveExpectancy
    | ExcellentRiskReward(ratio: real)
    | GoodRiskReward(ratio: real)
    | ControlledDrawdown

  datatype Weakness =
    | WinRateCouldImprove
    | LowWinRate
    | LowProfitFactor
    | NegativeExpectancy
    | RiskRewardRoom(ratio: real)
    | ModerateDrawdown
    | HighDrawdown(pct: real)

  datatype Advice =
    | ImproveEntryCriteria
    | ReviewEntryAndExit
    | ImproveProfitFactor
    | ImproveExpectancy
    | AdjustStops
    | TightenRiskControls

  /** The three lists of `_generate_insights`, deduplicated through `set`,
      so their order is not part of the result. */
  datatype Insights = Insights(recommendations: set<Advice>, strengths: set<Strength>, weaknesses: set<Weakness>)

  /** The advice that goes with each weakness; a moderate drawdown comes
      with none. */
  function AdviceFor(w: Weakness): Option<Advice> {
    match w
    case WinRateCouldImprove => Some(ImproveEntryCriteria)
    case LowWinRate => Some(ReviewEntryAndExit)
    case LowProfitFactor => Some(ImproveProfitFactor)
    case NegativeExpectancy => Some(ImproveExpectancy)
    case RiskRewardRoom(_) => Some(AdjustStops)
    case ModerateDrawdown => None
    case HighDrawdown(_) => Some(TightenRiskControls)
  }

  /** The verdicts on one facet of the statistics. */
  datatype Facet = Facet(strengths: set<Strength>, weaknesses: set<Weakness>, advice: set<Advice>)

  /** Every piece of advice answers one of the weaknesses, and every
      weakness that has advice brings it. */
  predicate Advised(advice: set<Advice>, weaknesses: set<Weakness>) {
    forall a :: a in advice <==> exists w :: w in weaknesses && AdviceFor(w) == Some(a)
  }

  /** A weakness and its advice, if any. */
  function Flag(w: Weakness): (f: Facet)
    ensures f.strengths == {} && f.weaknesses == {w}
    ensures Advised(f.advice, f.weaknesses)
  {
    Facet({}, {w}, if AdviceFor(w).Some? then {AdviceFor(w).value} else {})
  }

  function Praise(s: Strength): (f: Facet)
    ensures f.strengths == {s} && f.weaknesses == {}
    ensures Advised(f.advice, f.weaknesses)
  {
    Facet({s}, {}, {})
  }

  lemma AdvisedUnion(a1: set<Advice>, w1: set<Weakness>, a2: set<Advice>, w2: set<Weakness>)
    requires Advised(a1, w1) && Advised(a2, w2)
    ensures Advised(a1 + a2, w1 + w2)
  {
    forall a | a in a1 + a2
      ensures exists w :: w in w1 + w2 && AdviceFor(w) == Some(a)
    {
      if a in a1 {
        var w :| w in w1 && AdviceFor(w) == Some(a);
        assert w in w1 + w2;
      } else {
        var w :| w in w2 && AdviceFor(w) == Some(a);
        assert w in w1 + w2;
      }
    }
  }

  /** The win-rate verdict follows the bands of the win-rate score. */
  function WinRateFacet(winRate: real): (f: Facet)
    ensures Advised(f.advice, f.weaknesses)
    ensures f.strengths <= {ExcellentWinRate, GoodWinRate}
    ensures f.weaknesses <= {WinRateCouldImprove, LowWinRate}
    ensures winRate >= 0.0 ==>
      && (ExcellentWinRate in f.strengths <==> WinRateScore(winRate) >= 90.0)
      && (GoodWinRate in f.strengths <==> 70.0 <= WinRateScore(winRate) < 90.0)
      && (WinRateCouldImprove in f.weaknesses <==> 50.0 <= WinRateScore(winRate) < 70.0)
      && (LowWinRate in f.weaknesses <==> WinRateScore(winRate) < 50.0)
  {
    if winRate >= 0.6 then Praise(ExcellentWinRate)
    else if winRate >= 0.5 then Praise(GoodWinRate)
    else if winRate >= 0.4 then Flag(WinRateCouldImprove)
    else Flag(LowWinRate)
  }

  /** The profit-factor verdict follows the bands of its score. */
  function ProfitFactorFacet(pf: Ext): (f: Facet)
    ensures Advised(f.advice, f.weaknesses)
    ensures f.strengths <= {StrongProfitFactor, DecentProfitFactor}
    ensures f.weaknesses <= {LowProfitFactor}
    ensures StrongProfitFactor in f.strengths <==> AtLeast(ProfitFactorScore(pf), 90.0)
    ensures DecentProfitFactor in f.strengths <==> !AtLeast(ProfitFactorScore(pf), 90.0) && ProfitFactorScore(pf).value >= 70.0
    ensures LowProfitFactor in f.weaknesses <==> !AtLeast(ProfitFactorScore(pf), 70.0)
  {
    if AtLeast(pf, 2.0) then Praise(StrongProfitFactor)
    else if AtLeast(pf, 1.5) then Praise(DecentProfitFactor)
    else Flag(LowProfitFactor)
  }

  /** The expectancy verdict: a strength exactly when the expectancy
      score is above its neutral 50. */
  function ExpectancyFacet(expectancy: real): (f: Facet)
    ensures Advised(f.advice, f.weaknesses)
    ensures f.strengths <= {PositiveExpectancy}
    ensures f.weaknesses <= {NegativeExpectancy}
    ensures PositiveExpectancy in f.strengths <==> ExpectancyScore(expectancy) > 50.0
    ensures NegativeExpectancy in f.weaknesses <==> ExpectancyScore(expectancy) <= 50.0
  {
    if expectancy > 0.0 then Praise(PositiveExpectancy) else Flag(NegativeExpectancy)
  }

  /** A risk-reward verdict is among the strengths or the weaknesses. */
  predicate HasRiskReward(f: Facet) {
    || (exists s :: s in f.strengths && (s.ExcellentRiskReward? || s.GoodRiskReward?))
    || (exists w :: w in f.weaknesses && w.RiskRewardRoom?)
  }

  /** The risk-reward verdict, only when both averages are positive; it
      carries the ratio. */
  function RiskRewardFacet(avgWin: real, avgLoss: real): (f: Facet)
    ensures Advised(f.advice, f.weaknesses)
    ensures HasRiskReward(f) <==> avgWin > 0.0 && avgLoss > 0.0
    ensures |f.strengths| + |f.weaknesses| == (if avgWin > 0.0 && avgLoss > 0.0 then 1 else 0)
    ensures forall s :: s in f.strengths ==> avgLoss != 0.0 && (s == ExcellentRiskReward(avgWin / avgLoss) || s == GoodRiskReward(avgWin / avgLoss))
    ensures forall w :: w in f.weaknesses ==> avgLoss != 0.0 && w == RiskRewardRoom(avgWin / avgLoss)
    ensures avgWin > 0.0 && avgLoss > 0.0 ==>
      && (ExcellentRiskReward(avgWin / avgLoss) in f.strengths <==> avgWin / avgLoss >= 2.0)
      && (GoodRiskReward(avgWin / avgLoss) in f.strengths <==> 1.5 <= avgWin / avgLoss < 2.0)
      && (RiskRewardRoom(avgWin / avgLoss) in f.weaknesses <==> avgWin / avgLoss < 1.5)
  {
    if avgWin > 0.0 && avgLoss > 0.0 then
      var ratio := avgWin / avgLoss;
      if ratio >= 2.0 then Praise(ExcellentRiskReward(ratio))
      else if ratio >= 1.5 then Praise(GoodRiskReward(ratio))
      else Flag(RiskRewardRoom(ratio))
    else Facet({}, {}, {})
  }

  /** The drawdown verdict: one of controlled (up to 10%), moderate (up
      to 20%) or high. */
  function DrawdownFacet(pct: real): (f: Facet)
    ensures Advised(f.advice, f.weaknesses)
    ensures f.strengths <= {ControlledDrawdown}
    ensures f.weaknesses <= {ModerateDrawdown, HighDrawdown(pct)}
    ensures ControlledDrawdown in f.strengths <==> pct <= 10.0
    ensures ModerateDrawdown in f.weaknesses <==> 10.0 < pct <= 20.0
    ensures HighDrawdown(pct) in f.weaknesses <==> pct > 20.0
  {
    if pct <= 10.0 then Praise(ControlledDrawdown)
    else if pct <= 20.0 then Flag(ModerateDrawdown)
    else Flag(HighDrawdown(pct))
  }

  /** Each facet holds verdicts of its own kinds only. */
  predicate Kinds(w: Facet, p: Facet, e: Facet, r: Facet, d: Facet) {
    && w.strengths <= {ExcellentWinRate, GoodWinRate} && w.weaknesses <= {WinRateCouldImprove, LowWinRate}
    && p.strengths <= {StrongProfitFactor, DecentProfitFactor} && p.weaknesses <= {LowProfitFactor}
    && e.strengths <= {PositiveExpectancy} && e.weaknesses <= {NegativeExpectancy}
    && (forall x :: x in r.strengths ==> x.ExcellentRiskReward? || x.GoodRiskReward?)
    && (forall x :: x in r.weaknesses ==> x.RiskRewardRoom?)
    && d.strengths <= {ControlledDrawdown}
    && (forall x :: x in d.weaknesses ==> x.ModerateDrawdown? || x.HighDrawdown?)
  }

  /** The union of the five facets.  Their verdicts are of distinct kinds,
      so each verdict of the union comes from its own facet. */
  function Combine(w: Facet, p: Facet, e: Facet, r: Facet, d: Facet): (ins: Insights)
    requires Kinds(w, p, e, r, d)
    ensures ExcellentWinRate in ins.strengths <==> ExcellentWinRate in w.strengths
    ensures GoodWinRate in ins.strengths <==> GoodWinRate in w.strengths
    ensures WinRateCouldImprove in ins.weaknesses <==> WinRateCouldImprove in w.weaknesses
    ensures LowWinRate in ins.weaknesses <==> LowWinRate in w.weaknesses
    ensures StrongProfitFactor in ins.strengths <==> StrongProfitFactor in p.strengths
    ensures DecentProfitFactor in ins.strengths <==> DecentProfitFactor in p.strengths
    ensures LowProfitFactor in ins.weaknesses <==> LowProfitFactor in p.weaknesses
    ensures PositiveExpectancy in ins.strengths <==> PositiveExpectancy in e.strengths
    ensures NegativeExpectancy in ins.weaknesses <==> NegativeExpectancy in e.weaknesses
    ensures forall x :: ExcellentRiskReward(x) in ins.strengths <==> ExcellentRiskReward(x) in r.strengths
    ensures forall x :: GoodRiskReward(x) in ins.strengths <==> GoodRiskReward(x) in r.strengths
    ensures forall x :: RiskRewardRoom(x) in ins.weaknesses <==> RiskRewardRoom(x) in r.weaknesses
    ensures ControlledDrawdown in ins.strengths <==> ControlledDrawdown in d.strengths
    ensures ModerateDrawdown in ins.weaknesses <==> ModerateDrawdown in d.weaknesses
    ensures forall x :: HighDrawdown(x) in ins.weaknesses <==> HighDrawdown(x) in d.weaknesses
  {
    Insights(
      w.advice + p.advice + e.advice + r.advice + d.advice,
      w.strengths + p.strengths + e.strengths + r.strengths + d.strengths,
      w.weaknesses + p.weaknesses + e.weaknesses + r.weaknesses + d.weaknesses)
  }

  lemma CombineAdvised(w: Facet, p: Facet, e: Facet, r: Facet, d: Facet)
    requires Kinds(w, p, e, r, d)
    requires Advised(w.advice, w.weaknesses) && Advised(p.advice, p.weaknesses) && Advised(e.advice, e.weaknesses)
    requires Advised(r.advice, r.weaknesses) && Advised(d.advice, d.weaknesses)
    ensures Advised(Combine(w, p, e, r, d).recommendations, Combine(w, p, e, r, d).weaknesses)
  {
    AdvisedUnion(w.advice, w.weaknesses, p.advice, p.weaknesses);
    AdvisedUnion(w.advice + p.advice, w.weaknesses + p.weaknesses, e.advice, e.weaknesses);
    AdvisedUnion(w.advice + p.advice + e.advice, w.weaknesses + p.weaknesses + e.weaknesses, r.advice, r.weaknesses);
    AdvisedUnion(w.advice + p.advice + e.advice + r.advice, w.weaknesses + p.weaknesses + e.weaknesses + r.weaknesses,
                 d.advice, d.weaknesses);
  }

  lemma CombineRiskReward(w: Facet, p: Facet, e: Facet, r: Facet, d: Facet)
    requires Kinds(w, p, e, r, d)
    ensures var ins := Combine(w, p, e, r, d);
      HasRiskReward(Facet(ins.strengths, ins.weaknesses, ins.recommendations)) <==> HasRiskReward(r)
  {
    var ins := Combine(w, p, e, r, d);
    if HasRiskReward(Facet(ins.strengths, ins.weaknesses, ins.recommendations)) {
      if s :| s in ins.strengths && (s.ExcellentRiskReward? || s.GoodRiskReward?) {
        assert s in r.strengths;
      } else {
        var x :| x in ins.weaknesses && x.RiskRewardRoom?;
        assert x in r.weaknesses;
      }
    }
  }

  /** `_generate_insights`: recommendations answer exactly the weaknesses,
      the win-rate and profit-factor verdicts follow the bands of their
      scores, and each other facet gives its one verdict. */
  function InsightsOf(st: BasicStats.StatsResult): (ins: Insights)
    ensures Advised(ins.recommendations, ins.weaknesses)
    ensures st.winRate >= 0.0 ==>
      && (ExcellentWinRate in ins.strengths <==> WinRateScore(st.winRate) >= 90.0)
      && (GoodWinRate in ins.strengths <==> 70.0 <= WinRateScore(st.winRate) < 90.0)
      && (WinRateCouldImprove in ins.weaknesses <==> 50.0 <= WinRateScore(st.winRate) < 70.0)
      && (LowWinRate in ins.weaknesses <==> WinRateScore(st.winRate) < 50.0)
    ensures StrongProfitFactor in ins.strengths <==> AtLeast(ProfitFactorScore(st.profitFactor), 90.0)
    ensures DecentProfitFactor in ins.strengths <==>
      !AtLeast(ProfitFactorScore(st.profitFactor), 90.0) && ProfitFactorScore(st.profitFactor).value >= 70.0
    ensures LowProfitFactor in ins.weaknesses <==> !AtLeast(ProfitFactorScore(st.profitFactor), 70.0)
    ensures PositiveExpectancy in ins.strengths <==> ExpectancyScore(st.expectancy) > 50.0
    ensures NegativeExpectancy in ins.weaknesses <==> ExpectancyScore(st.expectancy) <= 50.0
    ensures HasRiskReward(Facet(ins.strengths, ins.weaknesses, ins.recommendations)) <==> st.avgWin > 0.0 && st.avgLoss > 0.0
    ensures st.avgWin > 0.0 && st.avgLoss > 0.0 ==>
      && (ExcellentRiskReward(st.avgWin / st.avgLoss) in ins.strengths <==> st.avgWin / st.avgLoss >= 2.0)
      && (GoodRiskReward(st.avgWin / st.avgLoss) in ins.strengths <==> 1.5 <= st.avgWin / st.avgLoss < 2.0)
      && (RiskRewardRoom(st.avgWin / st.avgLoss) in ins.weaknesses <==> st.avgWin / st.avgLoss < 1.5)
    ensures ControlledDrawdown in ins.strengths <==> st.maxDrawdown <= 10.0
    ensures ModerateDrawdown in ins.weaknesses <==> 10.0 < st.maxDrawdown <= 20.0
    ensures HighDrawdown(st.maxDrawdown) in ins.weaknesses <==> st.maxDrawdown > 20.0
  {
    var w := WinRateFacet(st.winRate);
    var p := ProfitFactorFacet(st.profitFactor);
    var e := ExpectancyFacet(st.expectancy);
    var r := RiskRewardFacet(st.avgWin, st.avgLoss);
    var d := DrawdownFacet(st.maxDrawdown);
    CombineAdvised(w, p, e, r, d);
    CombineRiskReward(w, p, e, r, d);
    Combine(w, p, e, r, d)
  }

  // ---------------------------------------------------------------------
  // Overall score
  // ---------------------------------------------------------------------

  datatype PerformanceScore = PerformanceScore(
    overall: Ext,
    letter: Letter,
    winRateScore: real,
    riskScore: real,
    profitFactorScore: Ext,
    insights: Insights)

  /** `calculate_overall_score()` on a set of statistics.  With a win
      rate that is a proportion, every component has a floor, and so does
      the overall score. */
  function ScoreOf(st: BasicStats.StatsResult): (p: PerformanceScore)
    ensures st.winRate >= 0.0 ==> p.winRateScore >= 30.0
    ensures 0.0 <= p.riskScore <= 100.0 && AtLeast(p.profitFactorScore, 10.0)
    ensures st.winRate >= 0.0 ==> AtLeast(p.overall, 15.0)
    ensures p.overall.Unbounded? <==> st.profitFactor.Unbounded?
    ensures p.letter == A <==> AtLeast(p.overall, 90.0)
    ensures p.letter == F <==> p.overall.Finite? && p.overall.value < 60.0
    ensures p.winRateScore == WinRateScore(st.winRate)
    ensures p.riskScore == RiskScore(st.expectancy, st.avgWin, st.avgLoss)
    ensures p.profitFactorScore == ProfitFactorScore(st.profitFactor)
    ensures p.overall == Weighted(p.winRateScore, p.riskScore, p.profitFactorScore)
    ensures p.letter == LetterGrade(p.overall)
    ensures p.insights == InsightsOf(st)
  {
    var w := WinRateScore(st.winRate);
    var r := RiskScore(st.expectancy, st.avgWin, st.avgLoss);
    var pf := ProfitFactorScore(st.profitFactor);
    var overall := Weighted(w, r, pf);
    assert overall.Finite? ==> overall.value == w * 0.4 + r * 0.3 + pf.value * 0.3;
    PerformanceScore(overall, LetterGrade(overall), w, r, pf, InsightsOf(st))
  }

  /** `calculate_overall_score()` for a journal. */
  function OverallScore(trades: seq<Trade>): (p: PerformanceScore)
    ensures p.winRateScore >= 30.0 && 0.0 <= p.riskScore <= 100.0 && AtLeast(p.profitFactorScore, 10.0)
    ensures AtLeast(p.overall, 15.0)
    ensures p.overall.Unbounded? <==> BasicStats.Compute(trades).lossTrades == 0
    ensures p.winRateScore == WinRateScore(BasicStats.Compute(trades).winRate)
    ensures p.riskScore == RiskScore(BasicStats.Compute(trades).expectancy, BasicStats.Compute(trades).avgWin, BasicStats.Compute(trades).avgLoss)
    ensures p.profitFactorScore == ProfitFactorScore(BasicStats.Compute(trades).profitFactor)
    ensures p.overall == Weighted(p.winRateScore, p.riskScore, p.profitFactorScore)
    ensures p.letter == LetterGrade(p.overall)
  {
    ScoreOf(BasicStats.Compute(trades))
  }

  /** Without a losing trade the profit factor is infinite, and so are the
      profit-factor and overall scores: the grade is A whatever the rest
      of the journal looks like, an empty journal included. */
  lemma NoLossesGradeA(trades: seq<Trade>)
    requires BasicStats.Compute(trades).lossTrades == 0
    ensures OverallScore(trades).letter == A
    ensures OverallScore(trades).overall == Unbounded
  {
  }

  // ---------------------------------------------------------------------
  // Grading single trades
  // ---------------------------------------------------------------------

  /** The largest profit among the portfolio's winning trades, open ones
      included; absent when nothing gained. */
  function LargestGain(s: seq<Trade>): (r: Option<real>)
    ensures r.None? <==> forall i :: 0 <= i < |s| ==> s[i].profit <= 0.0
    ensures r.Some? ==> r.value > 0.0 && exists i :: 0 <= i < |s| && s[i].profit == r.value
    ensures r.Some? ==> forall i :: 0 <= i < |s| ==> s[i].profit <= r.value
  {
    if |s| == 0 then None
    else
      var r := LargestGain(s[..|s| - 1]);
      var p := s[|s| - 1].profit;
      assert forall i :: 0 <= i < |s| - 1 ==> s[..|s| - 1][i] == s[i];
      if p > 0.0 && (r.None? || p > r.value) then Some(p) else r
  }

  /** The loss closest to zero among the portfolio's losing trades, as a
      magnitude; absent when nothing lost. */
  function SmallestLoss(s: seq<Trade>): (r: Option<real>)
    ensures r.None? <==> forall i :: 0 <= i < |s| ==> s[i].profit >= 0.0
    ensures r.Some? ==> r.value > 0.0 && exists i :: 0 <= i < |s| && s[i].profit == -r.value
    ensures r.Some? ==> forall i :: 0 <= i < |s| && s[i].profit < 0.0 ==> r.value <= -s[i].profit
  {
    if |s| == 0 then None
    else
      var r := SmallestLoss(s[..|s| - 1]);
      var p := s[|s| - 1].profit;
      assert forall i :: 0 <= i < |s| - 1 ==> s[..|s| - 1][i] == s[i];
      if p < 0.0 && (r.None? || -p < r.value) then Some(-p) else r
  }

  /** A normaliser, 100 when the portfolio has no trade of that sign. */
  function OrHundred(x: Option<real>): (r: real)
    requires x.Some? ==> x.value > 0.0
    ensures r > 0.0
    ensures x.Some? ==> r == x.value
  {
    if x.Some? then x.value else 100.0
  }

  /** `x / d` is below `c` when `x` is below `c * d`, for a positive `d`. */
  lemma QuotientBelow(x: real, d: real, c: real)
    requires d > 0.0 && x < c * d
    ensures x / d < c
  {
    var q := x / d;
    assert q * d == x;
    if q >= c {
      assert q * d >= c * d;
    }
  }

  /** Division by a positive `d` keeps the order. */
  lemma QuotientMonotone(x: real, y: real, d: real)
    requires d > 0.0
    ensures x <= y ==> x / d <= y / d
  {
    assert (x / d) * d == x && (y / d) * d == y;
  }

  /** The profitability part of `grade_individual_trade`: a winner scores
      from 30 up, proportionally to `best`, capped at 100; a loser loses 50
      points per multiple of `least`, down to 0; breakeven scores 50. */
  function ProfitScore(profit: real, best: real, least: real): (s: real)
    requires best > 0.0 && least > 0.0
    ensures 0.0 <= s <= 100.0
    ensures profit == 0.0 ==> s == 50.0
    ensures profit > 0.0 ==> s > 30.0
    ensures profit >= best ==> s == 100.0
    ensures profit < 0.0 ==> s < 50.0
    ensures profit <= -least ==> s == 0.0
  {
    if profit > 0.0 then
      QuotientMonotone(best, profit, best);
      QuotientMonotone(0.0, profit, best);
      Min(100.0, (profit / best) * 70.0 + 30.0)
    else if profit < 0.0 then
      QuotientMonotone(least, Abs(profit), least);
      QuotientMonotone(0.0, Abs(profit), least);
      Max(0.0, 50.0 - (Abs(profit) / least) * 50.0)
    else 50.0
  }

  /** Within each sign a larger profit never scores lower. */
  lemma ProfitScoreMonotone(p1: real, p2: real, best: real, least: real)
    requires best > 0.0 && least > 0.0
    requires p1 <= p2 && (p1 > 0.0 || p2 <= 0.0)
    ensures ProfitScore(p1, best, least) <= ProfitScore(p2, best, least)
  {
    if p1 > 0.0 {
      QuotientMonotone(p1, p2, best);
    } else if p2 < 0.0 {
      QuotientMonotone(Abs(p2), Abs(p1), least);
    }
  }

  /** Across signs the order breaks: a winner smaller than two sevenths of
      the largest gain scores below a breakeven trade. */
  lemma SmallWinnerBelowBreakeven(profit: real, best: real, least: real)
    requires best > 0.0 && least > 0.0
    requires 0.0 < profit && profit * 7.0 < best * 2.0
    ensures ProfitScore(profit, best, least) < ProfitScore(0.0, best, least)
  {
    QuotientBelow(profit, best, 2.0 / 7.0);
  }

  /** The holding-time bonus.  A duration that is missing or zero earns
      nothing; otherwise winners earn 10 for one to eight hours and 5 for
      half an hour to one hour or eight to 24 hours, and every other trade
      earns 5 up to two hours and 2 up to eight. */
  function DurationBonus(profit: real, duration: Option<int>): (b: real)
    ensures profit > 0.0 ==> b in {0.0, 5.0, 10.0}
    ensures profit <= 0.0 ==> b in {0.0, 2.0, 5.0}
    ensures duration.None? || duration.value == 0 ==> b == 0.0
    ensures profit > 0.0 && duration.Some? && duration.value != 0 ==>
      && (b == 10.0 <==> 3600 <= duration.value <= 28800)
      && (b == 5.0 <==> 1800 <= duration.value < 3600 || 28800 < duration.value <= 86400)
      && (b == 0.0 <==> duration.value < 1800 || 86400 < duration.value)
    ensures profit <= 0.0 && duration.Some? && duration.value != 0 ==>
      && (b == 5.0 <==> duration.value <= 7200)
      && (b == 2.0 <==> 7200 < duration.value <= 28800)
      && (b == 0.0 <==> 28800 < duration.value)
  {
    if duration.None? || duration.value == 0 then 0.0
    else
      var hours := duration.value as real / 3600.0;
      if profit > 0.0 then
        if 1.0 <= hours <= 8.0 then 10.0
        else if (0.5 <= hours < 1.0) || (8.0 < hours <= 24.0) then 5.0
        else 0.0
      else
        if hours <= 2.0 then 5.0
        else if hours <= 8.0 then 2.0
        else 0.0
  }

  /** For a trade that did not gain, closing sooner never earns less, once
      the duration is non-zero. */
  lemma QuickerExitNeverWorse(profit: real, d1: int, d2: int)
    requires profit <= 0.0 && d1 != 0 && d1 <= d2
    ensures DurationBonus(profit, Some(d1)) >= DurationBonus(profit, Some(d2))
  {
    assert d1 as real / 3600.0 <= d2 as real / 3600.0;
  }

  /** A winner's bonus is highest exactly for holdings of one to eight hours. */
  lemma WinnerBonusPeak(profit: real, d: int)
    requires profit > 0.0 && d != 0
    ensures DurationBonus(profit, Some(d)) == 10.0 <==> 3600 <= d <= 28800
  {
    var hours := d as real / 3600.0;
    assert 1.0 <= hours <= 8.0 <==> 3600 <= d <= 28800 by {
      assert hours * 3600.0 == d as real;
    }
  }

  /** `x or None`: a zero stop-loss or take-profit counts as missing. */
  function Present(x: Option<real>): (r: Option<real>)
    ensures r.Some? <==> x.Some? && x.value != 0.0
    ensures r.Some? ==> r == x
  {
    if x.Some? && x.value != 0.0 then x else None
  }

  /** The bonus for a planned reward-to-risk ratio. */
  function RatioBonus(ratio: real): (b: real)
    ensures b == 15.0 <==> ratio >= 2.0
    ensures b == 10.0 <==> 1.5 <= ratio < 2.0
    ensures b == 5.0 <==> 1.0 <= ratio < 1.5
    ensures b == 0.0 <==> ratio < 1.0
  {
    if ratio >= 2.0 then 15.0
    else if ratio >= 1.5 then 10.0
    else if ratio >= 1.0 then 5.0
    else 0.0
  }

  lemma RatioBonusMonotone(a: real, b: real)
    requires a <= b
    ensures RatioBonus(a) <= RatioBonus(b)
  {
  }

  /** The risk-reward part of `grade_individual_trade`: the take-profit
      distance over the stop-loss distance, both from the open price; no
      bonus without both levels or with the stop at the open price. */
  function RiskRewardBonus(t: Trade): (b: real)
    ensures b in {0.0, 5.0, 10.0, 15.0}
    ensures Present(t.sl).None? || Present(t.tp).None? ==> b == 0.0
    ensures t.sl == Some(t.openPrice) ==> b == 0.0
    ensures b > 0.0 ==> Abs(t.tp.value - t.openPrice) >= Abs(t.openPrice - t.sl.value) > 0.0
    ensures Present(t.sl).Some? && Present(t.tp).Some? && Abs(t.openPrice - t.sl.value) > 0.0 ==>
      b == RatioBonus(Abs(t.tp.value - t.openPrice) / Abs(t.openPrice - t.sl.value))
  {
    var sl, tp := Present(t.sl), Present(t.tp);
    if sl.Some? && tp.Some? && Abs(t.openPrice - sl.value) > 0.0 then
      var slDiff := Abs(t.openPrice - sl.value);
      var tpDiff := Abs(tp.value - t.openPrice);
      RatioAtLeastOne(tpDiff, slDiff);
      RatioBonus(tpDiff / slDiff)
    else 0.0
  }

  /** A ratio of at least one has a numerator at least its denominator. */
  lemma RatioAtLeastOne(x: real, d: real)
    requires d > 0.0
    ensures x / d >= 1.0 ==> x >= d
  {
    assert (x / d) * d == x;
  }

  datatype Direction = Long | Short

  /** LONG for an order type whose upper-cased form starts with B. */
  function DirectionOf(orderType: string): (d: Direction)
    ensures d == Long <==> |orderType| > 0 && (orderType[0] == 'B' || orderType[0] == 'b')
  {
    if |orderType| > 0 && (orderType[0] == 'B' || orderType[0] == 'b') then Long else Short
  }

  datatype Feedback = ProfitableTrade(gain: real) | LosingTrade(loss: real) | BreakevenTrade | GoodRiskRewardSetup

  datatype TradeGrade = TradeGrade(
    ticket: int,
    symbol: string,
    letter: Letter,
    score: real,
    profitability: real,
    duration: real,
    riskReward: real,
    feedback: seq<Feedback>,
    direction: Direction)

  /** `grade_individual_trade(t)` for a scorer built on `portfolio`.  Winners
      are normalised by the portfolio's largest gain and losers by its
      smallest loss. */
  function GradeTrade(portfolio: seq<Trade>, t: Trade): (g: TradeGrade)
    ensures g.ticket == t.ticket && g.symbol == t.symbol
    ensures 0.0 <= g.score <= 100.0
    ensures g.score <= g.profitability + g.duration + g.riskReward
    ensures g.profitability + g.duration + g.riskReward <= 100.0 ==> g.score == g.profitability + g.duration + g.riskReward
    ensures g.letter == F <==> g.score < 60.0
    ensures g.letter == A <==> g.score >= 90.0
    ensures t.profit == 0.0 ==> g.profitability == 50.0
    ensures t.profit > 0.0 ==> g.profitability > 30.0
    ensures t.profit < 0.0 ==> g.profitability < 50.0
    ensures |g.feedback| >= 1
    ensures g.feedback[0].ProfitableTrade? <==> t.profit > 0.0
    ensures g.feedback[0].LosingTrade? <==> t.profit < 0.0
    ensures GoodRiskRewardSetup in g.feedback <==> g.riskReward > 0.0
    ensures g.profitability == ProfitScore(t.profit, OrHundred(LargestGain(portfolio)), OrHundred(SmallestLoss(portfolio)))
    ensures g.duration == DurationBonus(t.profit, Duration(t))
    ensures g.riskReward == RiskRewardBonus(t)
    ensures g.score == Min(100.0, g.profitability + g.duration + g.riskReward)
    ensures g.letter == LetterGrade(Finite(g.score))
    ensures g.direction == DirectionOf(t.orderType)
  {
    var best := OrHundred(LargestGain(portfolio));
    var least := OrHundred(SmallestLoss(portfolio));
    var ps := ProfitScore(t.profit, best, least);
    var ds := DurationBonus(t.profit, Duration(t));
    var rr := RiskRewardBonus(t);
    var total := Min(100.0, ps + ds + rr);
    var first :=
      if t.profit > 0.0 then ProfitableTrade(t.profit)
      else if t.profit < 0.0 then LosingTrade(Abs(t.profit))
      else BreakevenTrade;
    var feedback := [first] + (if rr > 0.0 then [GoodRiskRewardSetup] else []);
    TradeGrade(t.ticket, t.symbol, LetterGrade(Finite(total)), total, ps, ds, rr, feedback, DirectionOf(t.orderType))
  }

  /** Every losing trade of the portfolio loses at least the smallest loss,
      so it scores 0 for profitability, at most 20 in total, and an F. */
  lemma PortfolioLoserScoresZero(portfolio: seq<Trade>, i: int)
    requires 0 <= i < |portfolio| && portfolio[i].profit < 0.0
    ensures GradeTrade(portfolio, portfolio[i]).profitability == 0.0
    ensures GradeTrade(portfolio, portfolio[i]).score <= 20.0
    ensures GradeTrade(portfolio, portfolio[i]).letter == F
  {
    var least := SmallestLoss(portfolio);
    assert least.Some? && least.value <= -portfolio[i].profit;
  }

  /** A winner of the portfolio never exceeds its largest gain, so it scores
      in (30, 100] for profitability, and its biggest winner scores 100. */
  lemma PortfolioWinnerScore(portfolio: seq<Trade>, i: int)
    requires 0 <= i < |portfolio| && portfolio[i].profit > 0.0
    ensures 30.0 < GradeTrade(portfolio, portfolio[i]).profitability <= 100.0
    ensures LargestGain(portfolio) == Some(portfolio[i].profit) ==> GradeTrade(portfolio, portfolio[i]).profitability == 100.0
  {
  }

  /** `grade_all_trades()`: one grade per trade, in portfolio order. */
  function GradeAll(portfolio: seq<Trade>): (gs: seq<TradeGrade>)
    ensures |gs| == |portfolio|
    ensures forall i :: 0 <= i < |gs| ==> gs[i] == GradeTrade(portfolio, portfolio[i])
    ensures forall i :: 0 <= i < |gs| ==> gs[i].ticket == portfolio[i].ticket && 0.0 <= gs[i].score <= 100.0
    ensures forall i :: 0 <= i < |gs| && portfolio[i].profit < 0.0 ==> gs[i].letter == F
  {
    var gs := seq(|portfolio|, i requires 0 <= i < |portfolio| => GradeTrade(portfolio, portfolio[i]));
    forall i | 0 <= i < |gs| && portfolio[i].profit < 0.0
      ensures gs[i].letter == F
    {
      PortfolioLoserScoresZero(portfolio, i);
    }
    gs
  }
}
