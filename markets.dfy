/**
 * calculate_markets_from_api_data (app.py:18-148): the availability gate,
 * then the 1X2 probabilities, the odds of every market, the top correct
 * scores and the correct-score grid of one fixture row.
 */
module Markets {
  import opened Wrappers
  import opened ScoreNames
  import opened FixtureRow
  import opened Aggregates
  import opened OddsFormat
  import opened ScoreRanking
  import opened ScoreGrid

  datatype DoubleChance = DoubleChance(homeOrDraw: Option<real>, homeOrAway: Option<real>, drawOrAway: Option<real>)

  datatype OverUnder = OverUnder(over0_5: Option<real>, over1_5: Option<real>, over2_5: Option<real>, over3_5: Option<real>)

  datatype TeamGoalsOver = TeamGoalsOver(
    homeOver0_5: Option<real>, homeOver1_5: Option<real>, awayOver0_5: Option<real>, awayOver1_5: Option<real>)

  datatype Btts = Btts(yes: Option<real>, no: Option<real>)

  datatype ResultAndBtts = ResultAndBtts(homeAndBttsYes: Option<real>, awayAndBttsYes: Option<real>)

  datatype GoalRanges = GoalRanges(goals0_1: Option<real>, goals2_3: Option<real>, goals4Plus: Option<real>)

  /** One entry of topCorrectScores: the "h-a" label and its odd. */
  datatype CorrectScoreOdd = CorrectScoreOdd(score: string, odd: Option<real>)

  /** The "odds" object of the result. */
  datatype Odds = Odds(
    homeWin: Option<real>, draw: Option<real>, awayWin: Option<real>,
    doubleChance: DoubleChance, overUnder: OverUnder, teamGoalsOver: TeamGoalsOver,
    btts: Btts, resultAndBtts: ResultAndBtts, goalRanges: GoalRanges,
    topCorrectScores: seq<CorrectScoreOdd>)

  /** The returned dictionary: {odds_available: False}, or the full market set. */
  datatype MarketData =
    | OddsUnavailable
    | OddsAvailable(probabilities: Probabilities, odds: Odds, correctScoreHeatmap: seq<seq<real>>)

  /** The exception the function can raise: an empty score table has no 'HG' column (app.py:49-50). */
  datatype CalcError = ScoreTableWithoutColumns

  /** top_cs_odds_list (app.py:84). */
  function TopCorrectScores(scores: seq<Score>): seq<CorrectScoreOdd>
  {
    var top := TopScores(scores);
    seq(|top|, i requires 0 <= i < |top| => CorrectScoreOdd(ScoreLabel(top[i].hg, top[i].ag), ToOdd(top[i].prob)))
  }

  /** The odds dictionary of app.py:92-127. */
  function BuildOdds(p: Probabilities, m: MarketProbs, scores: seq<Score>): Odds
  {
    Odds(
      homeWin := ToOdd(p.homeWin),
      draw := ToOdd(p.draw),
      awayWin := ToOdd(p.awayWin),
      doubleChance := DoubleChance(ToOdd(p.homeWin + p.draw), ToOdd(p.homeWin + p.awayWin), ToOdd(p.draw + p.awayWin)),
      overUnder := OverUnder(ToOdd(m.over0_5), ToOdd(m.over1_5), ToOdd(m.over2_5), ToOdd(m.over3_5)),
      teamGoalsOver := TeamGoalsOver(ToOdd(m.homeOver0_5), ToOdd(m.homeOver1_5), ToOdd(m.awayOver0_5), ToOdd(m.awayOver1_5)),
      btts := Btts(ToOdd(m.bttsYes), ToOdd(m.bttsNo)),
      resultAndBtts := ResultAndBtts(ToOdd(m.homeAndBtts), ToOdd(m.awayAndBtts)),
      goalRanges := GoalRanges(ToOdd(m.goals0_1), ToOdd(m.goals2_3), ToOdd(m.goals4Plus)),
      topCorrectScores := TopCorrectScores(scores))
  }

  /**
   * The whole calculation for one row. The result is {odds_available: False}
   * exactly when a bucket column is missing or NaN, or no "R:" column holds a
   * number; it raises exactly when "R:" columns hold numbers but none of their
   * names parses; otherwise it is the full market set.
   */
  function CalculateMarkets(row: Row): (r: Result<MarketData, CalcError>)
    ensures r == Ok(OddsUnavailable)
      <==> !GdComplete(row) || forall i :: 0 <= i < |row| ==> !IsScoreColumn(row[i])
    ensures r.Err? <==> GdComplete(row) && ResultColumns(row) != [] && ParsedScores(ResultColumns(row)) == []
  {
    if !GdComplete(row) then Ok(OddsUnavailable)
    else
      var p := OneXTwo(row);
      var cols := ResultColumns(row);
      if cols == [] then Ok(OddsUnavailable)
      else
        var scores := ParsedScores(cols);
        if scores == [] then Err(ScoreTableWithoutColumns)
        else Ok(OddsAvailable(p, BuildOdds(p, ScoreMarkets(scores), scores), Heatmap(scores)))
  }

  /** The source's function, with the record-collecting loop and the grid-filling loop run as methods. */
  method CalculateMarketsFromApiData(row: Row) returns (r: Result<MarketData, CalcError>)
    ensures r == CalculateMarkets(row)
  {
    if !GdComplete(row) {
      return Ok(OddsUnavailable);
    }
    var p := OneXTwo(row);
    var cols := ResultColumns(row);
    if cols == [] {
      return Ok(OddsUnavailable);
    }
    var scores := CollectScores(cols);
    if scores == [] {
      return Err(ScoreTableWithoutColumns);
    }
    var odds := BuildOdds(p, ScoreMarkets(scores), scores);
    var grid := FillHeatmap(scores);
    r := Ok(OddsAvailable(p, odds, grid));
  }

  /**
   * Each top correct score is a parsed record, named by a label that parses
   * back to its goals, with that record's odd; at most four are listed (their order is
   * stated by ScoreRanking.TopScoresAreTheLikeliest).
   */
  lemma TopCorrectScoresAreParsedRecords(scores: seq<Score>)
    ensures var list := TopCorrectScores(scores);
      && |list| <= TopCount
      && forall i :: 0 <= i < |list| ==>
           exists j :: (0 <= j < |scores|
             && ParseScoreName("R:" + list[i].score) == Some((scores[j].hg, scores[j].ag))
             && list[i].odd == ToOdd(scores[j].prob))
  {
    var top := TopScores(scores);
    TopScoresAreTheLikeliest(scores);
    var list := TopCorrectScores(scores);
    forall i | 0 <= i < |list|
      ensures exists j :: (0 <= j < |scores|
        && ParseScoreName("R:" + list[i].score) == Some((scores[j].hg, scores[j].ag))
        && list[i].odd == ToOdd(scores[j].prob))
    {
      assert top[i] in multiset(top);
      assert top[i] in multiset(scores);
      var j :| 0 <= j < |scores| && scores[j] == top[i];
      ScoreLabelRoundTrip(top[i].hg, top[i].ag);
    }
  }

  /** A successful result is built from the bucket sums and the parsed records of a complete row. */
  lemma AvailableData(row: Row, data: MarketData)
    requires CalculateMarkets(row) == Ok(data) && data.OddsAvailable?
    ensures var scores := ParsedScores(ResultColumns(row));
      && GdComplete(row) && scores != []
      && data.probabilities == OneXTwo(row)
      && data.odds.topCorrectScores == TopCorrectScores(scores)
      && data.correctScoreHeatmap == Heatmap(scores)
  {
  }

  /** The odds of a successful result are those of the 1X2 sums and the score markets of the parsed records. */
  lemma AvailableOdds(row: Row, data: MarketData)
    requires CalculateMarkets(row) == Ok(data) && data.OddsAvailable?
    ensures var scores := ParsedScores(ResultColumns(row));
      && GdComplete(row) && scores != []
      && data.odds == BuildOdds(OneXTwo(row), ScoreMarkets(scores), scores)
  {
  }

  /** The shape of the parts of a market set built from a complete row and its non-empty records. */
  lemma BuiltResultShape(row: Row, scores: seq<Score>, data: MarketData)
    requires GdComplete(row) && scores != [] && data.OddsAvailable?
    requires data.probabilities == OneXTwo(row)
    requires data.odds.topCorrectScores == TopCorrectScores(scores)
    requires data.correctScoreHeatmap == Heatmap(scores)
    ensures data.probabilities.homeWin + data.probabilities.draw + data.probabilities.awayWin == BucketSum(row, GdColumns)
    ensures |data.correctScoreHeatmap| == MaxGoals(scores, HomeGoals) + 1
    ensures Rectangular(data.correctScoreHeatmap, MaxGoals(scores, AwayGoals) + 1)
    ensures HasCellFor(data.correctScoreHeatmap, scores)
    ensures |data.odds.topCorrectScores| <= TopCount
  {
    OneXTwoPartition(row);
    HeatmapShape(scores);
    TopCorrectScoresAreParsedRecords(scores);
  }

  /**
   * A successful result carries the 1X2 sums of the buckets, a rectangular grid
   * holding every parsed score, and at most four top scores.
   */
  lemma AvailableResultShape(row: Row, data: MarketData)
    requires CalculateMarkets(row) == Ok(data) && data.OddsAvailable?
    ensures var scores := ParsedScores(ResultColumns(row));
      && GdComplete(row) && scores != []
      && data.probabilities.homeWin + data.probabilities.draw + data.probabilities.awayWin == BucketSum(row, GdColumns)
      && |data.correctScoreHeatmap| == MaxGoals(scores, HomeGoals) + 1
      && Rectangular(data.correctScoreHeatmap, MaxGoals(scores, AwayGoals) + 1)
      && HasCellFor(data.correctScoreHeatmap, scores)
      && |data.odds.topCorrectScores| <= TopCount
  {
    AvailableData(row, data);
    BuiltResultShape(row, ParsedScores(ResultColumns(row)), data);
  }

  /** Every odd of the odds object is absent or at least 1. */
  predicate AllOddsSensible(o: Odds)
  {
    && SensibleOdd(o.homeWin) && SensibleOdd(o.draw) && SensibleOdd(o.awayWin)
    && SensibleOdd(o.doubleChance.homeOrDraw) && SensibleOdd(o.doubleChance.homeOrAway)
    && SensibleOdd(o.doubleChance.drawOrAway)
    && SensibleOdd(o.overUnder.over0_5) && SensibleOdd(o.overUnder.over1_5)
    && SensibleOdd(o.overUnder.over2_5) && SensibleOdd(o.overUnder.over3_5)
    && SensibleOdd(o.teamGoalsOver.homeOver0_5) && SensibleOdd(o.teamGoalsOver.homeOver1_5)
    && SensibleOdd(o.teamGoalsOver.awayOver0_5) && SensibleOdd(o.teamGoalsOver.awayOver1_5)
    && SensibleOdd(o.btts.yes) && SensibleOdd(o.btts.no)
    && SensibleOdd(o.resultAndBtts.homeAndBttsYes) && SensibleOdd(o.resultAndBtts.awayAndBttsYes)
    && SensibleOdd(o.goalRanges.goals0_1) && SensibleOdd(o.goalRanges.goals2_3)
    && SensibleOdd(o.goalRanges.goals4Plus)
  }

  predicate InUnit(x: real) { 0.0 <= x <= 1.0 }

  /** Odds built from probabilities in [0, 1] are all absent or at least 1. */
  lemma UnitProbabilitiesGiveSensibleOdds(p: Probabilities, m: MarketProbs, scores: seq<Score>)
    requires InUnit(p.homeWin) && InUnit(p.draw) && InUnit(p.awayWin)
    requires InUnit(p.homeWin + p.draw) && InUnit(p.homeWin + p.awayWin) && InUnit(p.draw + p.awayWin)
    requires InUnit(m.over0_5) && InUnit(m.over1_5) && InUnit(m.over2_5) && InUnit(m.over3_5)
    requires InUnit(m.homeOver0_5) && InUnit(m.homeOver1_5) && InUnit(m.awayOver0_5) && InUnit(m.awayOver1_5)
    requires InUnit(m.bttsYes) && InUnit(m.bttsNo) && InUnit(m.homeAndBtts) && InUnit(m.awayAndBtts)
    requires InUnit(m.goals0_1) && InUnit(m.goals2_3) && InUnit(m.goals4Plus)
    ensures AllOddsSensible(BuildOdds(p, m, scores))
  {
  }

  /**
   * When the buckets and the parsed scores are both probability distributions,
   * every odd in the result is either absent or at least 1.
   */
  lemma DistributionsGiveSensibleOdds(row: Row, data: MarketData)
    requires CalculateMarkets(row) == Ok(data) && data.OddsAvailable?
    requires forall i :: 0 <= i < |GdColumns| ==> Value(row, GdColumns[i]).Some? && Value(row, GdColumns[i]).value >= 0.0
    requires BucketSum(row, GdColumns) == 1.0
    requires NonNegative(ParsedScores(ResultColumns(row))) && Mass(ParsedScores(ResultColumns(row))) == 1.0
    ensures AllOddsSensible(data.odds)
  {
    AvailableOdds(row, data);
    BuiltOddsSensible(row, ParsedScores(ResultColumns(row)), data.odds);
  }

  /** Odds built from bucket and score distributions are all absent or at least 1. */
  lemma BuiltOddsSensible(row: Row, scores: seq<Score>, odds: Odds)
    requires forall i :: 0 <= i < |GdColumns| ==> Value(row, GdColumns[i]).Some? && Value(row, GdColumns[i]).value >= 0.0
    requires BucketSum(row, GdColumns) == 1.0
    requires NonNegative(scores) && Mass(scores) == 1.0
    requires odds == BuildOdds(OneXTwo(row), ScoreMarkets(scores), scores)
    ensures AllOddsSensible(odds)
  {
    OneXTwoAreProbabilities(row);
    MarketsAreProbabilities(scores);
    UnitProbabilitiesGiveSensibleOdds(OneXTwo(row), ScoreMarkets(scores), scores);
  }

  /** "R:1-1" names the score 1-1. */
  lemma PlainNameParses(plain: string)
    requires plain == "R:1-1"
    ensures ParseScoreName(plain) == Some((1, 1))
  {
    assert NatToString(1) == "1";
    assert plain == "R:" + ScoreLabel(1, 1);
    ScoreLabelRoundTrip(1, 1);
  }

  /** "R:01-01" names the score 1-1 too. */
  lemma PaddedNameParses(padded: string)
    requires padded == "R:01-01"
    ensures ParseScoreName(padded) == Some((1, 1))
  {
    assert Zeros(1) == "0" && NatToString(1) == "1";
    var one := Zeros(1) + NatToString(1);
    assert one == "01";
    assert padded == "R:" + one + "-" + one;
    PaddedLabelParses(1, 1, 1, 1);
  }

  lemma PlainColumnParses(c: ResultColumn)
    requires c == ResultColumn("R:1-1", 0.25)
    ensures ScoreOf(c) == Some(Score(1, 1, 0.25))
  {
    PlainNameParses(c.name);
  }

  lemma PaddedColumnParses(c: ResultColumn)
    requires c == ResultColumn("R:01-01", 0.5)
    ensures ScoreOf(c) == Some(Score(1, 1, 0.5))
  {
    PaddedNameParses(c.name);
  }

  lemma DuplicateColumnsParse(cols: seq<ResultColumn>)
    requires cols == [ResultColumn("R:1-1", 0.25), ResultColumn("R:01-01", 0.5)]
    ensures ParsedScores(cols) == [Score(1, 1, 0.25), Score(1, 1, 0.5)]
  {
    calc {
      ParsedScores(cols);
    == { PaddedColumnParses(cols[1]); ParsedScoresAppend(cols, Score(1, 1, 0.5)); }
      ParsedScores(cols[..1]) + [Score(1, 1, 0.5)];
    == { assert cols[..1] == [cols[0]]; PlainColumnParses(cols[0]); ParsedScoresOfOne(cols[0], Score(1, 1, 0.25)); }
      [Score(1, 1, 0.25)] + [Score(1, 1, 0.5)];
    }
  }

  lemma DuplicateScoresMarkets(scores: seq<Score>)
    requires scores == [Score(1, 1, 0.25), Score(1, 1, 0.5)]
    ensures ScoreMarkets(scores).bttsYes == 0.75
    ensures Heatmap(scores)[1][1] == 0.5
  {
    assert scores[1..] == [Score(1, 1, 0.5)];
    assert scores[1..][1..] == [];
    assert SumWhere(scores[1..][1..], BothScore) == 0.0;
    assert SumWhere(scores[1..], BothScore) == 0.5;
    assert SumWhere(scores, BothScore) == 0.75;
    assert MaxGoals(scores, HomeGoals) == 1 && MaxGoals(scores, AwayGoals) == 1;
    assert CellValue(scores, 1, 1) == 0.5;
  }

  /**
   * Two column names for the same score ("R:1-1" and "R:01-01") both count in
   * every sum, while in the grid the later column overwrites the earlier one.
   */
  lemma DuplicateScoreColumns()
    ensures var cols := [ResultColumn("R:1-1", 0.25), ResultColumn("R:01-01", 0.5)];
      var scores := ParsedScores(cols);
      && scores == [Score(1, 1, 0.25), Score(1, 1, 0.5)]
      && ScoreMarkets(scores).bttsYes == 0.75
      && Heatmap(scores)[1][1] == 0.5
  {
    var cols := [ResultColumn("R:1-1", 0.25), ResultColumn("R:01-01", 0.5)];
    DuplicateColumnsParse(cols);
    DuplicateScoresMarkets(ParsedScores(cols));
  }
}
