/**
 * The market probabilities derived from the score records (app.py:55-80):
 * each is a filter-then-sum over the records, or one minus such a sum.
 */
module Aggregates {
  import opened FixtureRow

  /** df_scores.loc[selected(row), 'Prob'].sum() */
  function SumWhere(scores: seq<Score>, selected: Score -> bool): real
  {
    if scores == [] then 0.0
    else (if selected(scores[0]) then scores[0].prob else 0.0) + SumWhere(scores[1..], selected)
  }

  predicate Anything(sc: Score) { true }

  /** The whole parsed probability mass. */
  function Mass(scores: seq<Score>): real
  {
    SumWhere(scores, Anything)
  }

  predicate NonNegative(scores: seq<Score>)
  {
    forall i :: 0 <= i < |scores| ==> scores[i].prob >= 0.0
  }

  // ---------------------------------------------------------------------
  // The score predicates the source filters on
  // ---------------------------------------------------------------------

  function TotalGoals(sc: Score): nat { sc.hg + sc.ag }

  function TotalAtMost(k: nat): Score -> bool { (sc: Score) => TotalGoals(sc) <= k }

  function TotalAtLeast(k: nat): Score -> bool { (sc: Score) => TotalGoals(sc) >= k }

  /** TotalGoals.isin(values) */
  function TotalAmong(values: seq<nat>): Score -> bool { (sc: Score) => TotalGoals(sc) in values }

  function HomeAtLeast(k: nat): Score -> bool { (sc: Score) => sc.hg >= k }

  function AwayAtLeast(k: nat): Score -> bool { (sc: Score) => sc.ag >= k }

  predicate NilNil(sc: Score) { sc.hg == 0 && sc.ag == 0 }

  predicate BothScore(sc: Score) { sc.hg > 0 && sc.ag > 0 }

  predicate NotBothScore(sc: Score) { !BothScore(sc) }

  predicate HomeWinBothScore(sc: Score) { sc.hg > sc.ag && sc.hg > 0 && sc.ag > 0 }

  predicate AwayWinBothScore(sc: Score) { sc.ag > sc.hg && sc.hg > 0 && sc.ag > 0 }

  predicate DrawBothScore(sc: Score) { sc.hg == sc.ag && sc.hg > 0 }

  // ---------------------------------------------------------------------
  // The market probabilities
  // ---------------------------------------------------------------------

  datatype MarketProbs = MarketProbs(
    over0_5: real, over1_5: real, over2_5: real, over3_5: real,
    homeOver0_5: real, homeOver1_5: real, awayOver0_5: real, awayOver1_5: real,
    bttsYes: real, bttsNo: real,
    homeAndBtts: real, awayAndBtts: real,
    goals0_1: real, goals2_3: real, goals4Plus: real)

  /** The probabilities behind the over/under, team-goals, BTTS, result+BTTS and goal-range odds. */
  function ScoreMarkets(scores: seq<Score>): MarketProbs
  {
    var le1 := SumWhere(scores, TotalAtMost(1));
    var le2 := SumWhere(scores, TotalAtMost(2));
    var le3 := SumWhere(scores, TotalAtMost(3));
    var btts := SumWhere(scores, BothScore);
    MarketProbs(
      over0_5 := 1.0 - SumWhere(scores, NilNil),
      over1_5 := 1.0 - le1,
      over2_5 := 1.0 - le2,
      over3_5 := 1.0 - le3,
      homeOver0_5 := SumWhere(scores, HomeAtLeast(1)),
      homeOver1_5 := SumWhere(scores, HomeAtLeast(2)),
      awayOver0_5 := SumWhere(scores, AwayAtLeast(1)),
      awayOver1_5 := SumWhere(scores, AwayAtLeast(2)),
      bttsYes := btts,
      bttsNo := 1.0 - btts,
      homeAndBtts := SumWhere(scores, HomeWinBothScore),
      awayAndBtts := SumWhere(scores, AwayWinBothScore),
      goals0_1 := SumWhere(scores, TotalAmong([0, 1])),
      goals2_3 := SumWhere(scores, TotalAmong([2, 3])),
      goals4Plus := SumWhere(scores, TotalAtLeast(4)))
  }

  // ---------------------------------------------------------------------
  // The algebra of filter-and-sum
  // ---------------------------------------------------------------------

  /** Two disjoint filters that together make a third split its sum. */
  lemma {:induction false} SumWhereSplit(scores: seq<Score>, whole: Score -> bool, left: Score -> bool, right: Score -> bool)
    requires forall i :: 0 <= i < |scores| ==> (whole(scores[i]) <==> left(scores[i]) || right(scores[i]))
    requires forall i :: 0 <= i < |scores| ==> !(left(scores[i]) && right(scores[i]))
    ensures SumWhere(scores, whole) == SumWhere(scores, left) + SumWhere(scores, right)
  {
    if scores != [] {
      assert forall i :: 0 <= i < |scores[1..]| ==> scores[1..][i] == scores[i + 1];
      SumWhereSplit(scores[1..], whole, left, right);
    }
  }

  /** With non-negative probabilities, a narrower filter never sums to more. */
  lemma {:induction false} SumWhereMonotone(scores: seq<Score>, narrow: Score -> bool, wide: Score -> bool)
    requires NonNegative(scores)
    requires forall i :: 0 <= i < |scores| ==> narrow(scores[i]) ==> wide(scores[i])
    ensures SumWhere(scores, narrow) <= SumWhere(scores, wide)
  {
    if scores != [] {
      assert forall i :: 0 <= i < |scores[1..]| ==> scores[1..][i] == scores[i + 1];
      SumWhereMonotone(scores[1..], narrow, wide);
    }
  }

  /** A filter and its negation share the mass. */
  lemma SumWhereComplement(scores: seq<Score>, selected: Score -> bool, rest: Score -> bool)
    requires forall i :: 0 <= i < |scores| ==> (rest(scores[i]) <==> !selected(scores[i]))
    ensures SumWhere(scores, selected) + SumWhere(scores, rest) == Mass(scores)
  {
    SumWhereSplit(scores, Anything, selected, rest);
  }

  /** With non-negative probabilities every filtered sum lies between 0 and the mass. */
  lemma SumWhereBounds(scores: seq<Score>, selected: Score -> bool)
    requires NonNegative(scores)
    ensures 0.0 <= SumWhere(scores, selected) <= Mass(scores)
  {
    SumWhereMonotone(scores, selected, Anything);
    SumWhereMonotone(scores, sc => false, selected);
    SumWhereNothing(scores);
  }

  lemma {:induction false} SumWhereNothing(scores: seq<Score>)
    ensures SumWhere(scores, sc => false) == 0.0
  {
    if scores != [] {
      SumWhereNothing(scores[1..]);
    }
  }

  // ---------------------------------------------------------------------
  // What the source's markets mean
  // ---------------------------------------------------------------------

  /**
   * Each "over k.5" complement is the mass of the scores with more than k goals,
   * corrected by how far the parsed mass falls short of one; the same for BTTS "no".
   */
  lemma OversAreMassAbove(scores: seq<Score>)
    ensures var m := ScoreMarkets(scores);
      && m.over0_5 == (1.0 - Mass(scores)) + SumWhere(scores, TotalAtLeast(1))
      && m.over1_5 == (1.0 - Mass(scores)) + SumWhere(scores, TotalAtLeast(2))
      && m.over2_5 == (1.0 - Mass(scores)) + SumWhere(scores, TotalAtLeast(3))
      && m.over3_5 == (1.0 - Mass(scores)) + SumWhere(scores, TotalAtLeast(4))
      && m.bttsNo == (1.0 - Mass(scores)) + SumWhere(scores, NotBothScore)
  {
    SumWhereComplement(scores, NilNil, TotalAtLeast(1));
    SumWhereComplement(scores, TotalAtMost(1), TotalAtLeast(2));
    SumWhereComplement(scores, TotalAtMost(2), TotalAtLeast(3));
    SumWhereComplement(scores, TotalAtMost(3), TotalAtLeast(4));
    SumWhereComplement(scores, BothScore, NotBothScore);
  }

  /** The three goal ranges cover every total exactly once, so they add up to the parsed mass. */
  lemma GoalRangesPartitionMass(scores: seq<Score>)
    ensures var m := ScoreMarkets(scores); m.goals0_1 + m.goals2_3 + m.goals4Plus == Mass(scores)
  {
    SumWhereSplit(scores, TotalAtMost(3), TotalAmong([0, 1]), TotalAmong([2, 3]));
    SumWhereComplement(scores, TotalAtMost(3), TotalAtLeast(4));
  }

  /**
   * Home-win-and-BTTS and away-win-and-BTTS select disjoint scores, both inside
   * BTTS "yes"; the draws with both sides scoring make up the rest.
   */
  lemma ResultAndBttsSplitBtts(scores: seq<Score>)
    ensures forall sc :: !(HomeWinBothScore(sc) && AwayWinBothScore(sc))
    ensures forall sc :: HomeWinBothScore(sc) || AwayWinBothScore(sc) ==> BothScore(sc)
    ensures var m := ScoreMarkets(scores);
      m.bttsYes == m.homeAndBtts + m.awayAndBtts + SumWhere(scores, DrawBothScore)
  {
    SumWhereSplit(scores, BothScore, HomeWinBothScore, sc => AwayWinBothScore(sc) || DrawBothScore(sc));
    SumWhereSplit(scores, sc => AwayWinBothScore(sc) || DrawBothScore(sc), AwayWinBothScore, DrawBothScore);
  }

  /** With non-negative probabilities the lines are ordered: a higher line is never likelier. */
  lemma LinesAreOrdered(scores: seq<Score>)
    requires NonNegative(scores)
    ensures var m := ScoreMarkets(scores);
      && m.over3_5 <= m.over2_5 <= m.over1_5 <= m.over0_5
      && m.homeOver1_5 <= m.homeOver0_5
      && m.awayOver1_5 <= m.awayOver0_5
      && m.homeAndBtts + m.awayAndBtts <= m.bttsYes
  {
    SumWhereMonotone(scores, NilNil, TotalAtMost(1));
    SumWhereMonotone(scores, TotalAtMost(1), TotalAtMost(2));
    SumWhereMonotone(scores, TotalAtMost(2), TotalAtMost(3));
    SumWhereMonotone(scores, HomeAtLeast(2), HomeAtLeast(1));
    SumWhereMonotone(scores, AwayAtLeast(2), AwayAtLeast(1));
    ResultAndBttsSplitBtts(scores);
    SumWhereBounds(scores, DrawBothScore);
  }

  /** When the parsed scores form a distribution, every market probability lies in [0, 1]. */
  lemma MarketsAreProbabilities(scores: seq<Score>)
    requires NonNegative(scores) && Mass(scores) == 1.0
    ensures var m := ScoreMarkets(scores);
      && 0.0 <= m.over0_5 <= 1.0 && 0.0 <= m.over1_5 <= 1.0
      && 0.0 <= m.over2_5 <= 1.0 && 0.0 <= m.over3_5 <= 1.0
      && 0.0 <= m.homeOver0_5 <= 1.0 && 0.0 <= m.homeOver1_5 <= 1.0
      && 0.0 <= m.awayOver0_5 <= 1.0 && 0.0 <= m.awayOver1_5 <= 1.0
      && 0.0 <= m.bttsYes <= 1.0 && 0.0 <= m.bttsNo <= 1.0
      && 0.0 <= m.homeAndBtts <= 1.0 && 0.0 <= m.awayAndBtts <= 1.0
      && 0.0 <= m.goals0_1 <= 1.0 && 0.0 <= m.goals2_3 <= 1.0 && 0.0 <= m.goals4Plus <= 1.0
  {
    SumWhereBounds(scores, NilNil);
    SumWhereBounds(scores, TotalAtMost(1));
    SumWhereBounds(scores, TotalAtMost(2));
    SumWhereBounds(scores, TotalAtMost(3));
    SumWhereBounds(scores, HomeAtLeast(1));
    SumWhereBounds(scores, HomeAtLeast(2));
    SumWhereBounds(scores, AwayAtLeast(1));
    SumWhereBounds(scores, AwayAtLeast(2));
    SumWhereBounds(scores, BothScore);
    SumWhereBounds(scores, HomeWinBothScore);
    SumWhereBounds(scores, AwayWinBothScore);
    SumWhereBounds(scores, TotalAmong([0, 1]));
    SumWhereBounds(scores, TotalAmong([2, 3]));
    SumWhereBounds(scores, TotalAtLeast(4));
  }
}
