/**
 * The correct-score grid (app.py:130-141): (max home goals + 1) rows of
 * (max away goals + 1) cells, zero except where a record sets it; a later
 * record for the same score overwrites an earlier one.
 */
module ScoreGrid {
  import opened FixtureRow

  function HomeGoals(sc: Score): nat { sc.hg }

  function AwayGoals(sc: Score): nat { sc.ag }

  /** df_scores[column].max(); 0 for an empty table. */
  function MaxGoals(scores: seq<Score>, goals: Score -> nat): (m: nat)
    ensures forall i :: 0 <= i < |scores| ==> goals(scores[i]) <= m
    ensures scores != [] ==> exists i :: 0 <= i < |scores| && goals(scores[i]) == m
  {
    if scores == [] then 0
    else
      var rest := MaxGoals(scores[1..], goals);
      assert forall i :: 1 <= i < |scores| ==> scores[i] == scores[1..][i - 1];
      if scores[1..] == [] || goals(scores[0]) >= rest then goals(scores[0]) else rest
  }

  /** The value a cell ends with: the probability of the last record for that score, else 0.0. */
  function CellValue(scores: seq<Score>, hg: int, ag: int): real
  {
    if scores == [] then 0.0
    else
      var last := scores[|scores| - 1];
      if last.hg == hg && last.ag == ag then last.prob else CellValue(scores[..|scores| - 1], hg, ag)
  }

  /** The grid as the source returns it: [] for an empty table. */
  function Heatmap(scores: seq<Score>): seq<seq<real>>
  {
    if scores == [] then []
    else
      var rows, cols := MaxGoals(scores, HomeGoals) + 1, MaxGoals(scores, AwayGoals) + 1;
      seq(rows, hg => seq(cols, ag => CellValue(scores, hg, ag)))
  }

  /** A score no record names keeps its 0.0. */
  lemma {:induction false} CellValueUnset(scores: seq<Score>, hg: int, ag: int)
    requires forall i :: 0 <= i < |scores| ==> !(scores[i].hg == hg && scores[i].ag == ag)
    ensures CellValue(scores, hg, ag) == 0.0
  {
    if scores != [] {
      var init := scores[..|scores| - 1];
      assert forall i :: 0 <= i < |init| ==> init[i] == scores[i];
      CellValueUnset(init, hg, ag);
    }
  }

  /** The last record for a score decides its cell. */
  lemma {:induction false} CellValueLastWins(scores: seq<Score>, i: nat)
    requires i < |scores|
    requires forall j :: i < j < |scores| ==> !(scores[j].hg == scores[i].hg && scores[j].ag == scores[i].ag)
    ensures CellValue(scores, scores[i].hg, scores[i].ag) == scores[i].prob
  {
    if i < |scores| - 1 {
      var init := scores[..|scores| - 1];
      assert forall j :: 0 <= j < |init| ==> init[j] == scores[j];
      CellValueLastWins(init, i);
    }
  }

  /** Every row of the grid has the given width. */
  predicate Rectangular(grid: seq<seq<real>>, width: nat)
  {
    forall hg :: 0 <= hg < |grid| ==> |grid[hg]| == width
  }

  /** Every record's (home goals, away goals) cell lies inside the grid. */
  predicate HasCellFor(grid: seq<seq<real>>, scores: seq<Score>)
  {
    forall i :: 0 <= i < |scores| ==> scores[i].hg < |grid| && scores[i].ag < |grid[scores[i].hg]|
  }

  /** The grid's shape: every record's cell lies inside it. */
  lemma HeatmapShape(scores: seq<Score>)
    requires scores != []
    ensures var grid := Heatmap(scores);
      && |grid| == MaxGoals(scores, HomeGoals) + 1
      && Rectangular(grid, MaxGoals(scores, AwayGoals) + 1)
      && HasCellFor(grid, scores)
  {
    var grid := Heatmap(scores);
    forall i | 0 <= i < |scores| ensures scores[i].hg < |grid| && scores[i].ag < |grid[scores[i].hg]| {
      assert HomeGoals(scores[i]) <= MaxGoals(scores, HomeGoals);
      assert AwayGoals(scores[i]) <= MaxGoals(scores, AwayGoals);
    }
  }

  /**
   * The grid is rectangular with one row per home-goal count up to the largest
   * seen and one column per away-goal count up to the largest seen; every
   * record's cell lies inside it and holds the probability of the last record
   * for that score; a cell no record names is 0.0.
   */
  lemma HeatmapCells(scores: seq<Score>)
    requires scores != []
    ensures var grid := Heatmap(scores);
      && |grid| == MaxGoals(scores, HomeGoals) + 1
      && Rectangular(grid, MaxGoals(scores, AwayGoals) + 1)
      && HasCellFor(grid, scores)
      && (forall hg, ag :: 0 <= hg < |grid| && 0 <= ag < |grid[hg]|
            && (forall i :: 0 <= i < |scores| ==> !(scores[i].hg == hg && scores[i].ag == ag))
            ==> grid[hg][ag] == 0.0)
      && (forall i :: 0 <= i < |scores|
            && (forall j :: i < j < |scores| ==> !(scores[j].hg == scores[i].hg && scores[j].ag == scores[i].ag))
            ==> grid[scores[i].hg][scores[i].ag] == scores[i].prob)
  {
    var grid := Heatmap(scores);
    HeatmapShape(scores);
    forall hg: nat, ag: nat | hg < |grid| && ag < |grid[hg]|
        && (forall i :: 0 <= i < |scores| ==> !(scores[i].hg == hg && scores[i].ag == ag))
      ensures grid[hg][ag] == 0.0
    {
      HeatmapCell(scores, hg, ag);
      CellValueUnset(scores, hg, ag);
    }
    forall i | 0 <= i < |scores|
        && (forall j :: i < j < |scores| ==> !(scores[j].hg == scores[i].hg && scores[j].ag == scores[i].ag))
      ensures grid[scores[i].hg][scores[i].ag] == scores[i].prob
    {
      HeatmapCell(scores, scores[i].hg, scores[i].ag);
      CellValueLastWins(scores, i);
    }
  }

  lemma HeatmapCell(scores: seq<Score>, hg: nat, ag: nat)
    requires hg < |Heatmap(scores)| && ag < |Heatmap(scores)[hg]|
    ensures Heatmap(scores)[hg][ag] == CellValue(scores, hg, ag)
  {
  }

  /** The allocation and the filling loop of app.py:137-141. */
  method FillHeatmap(scores: seq<Score>) returns (grid: seq<seq<real>>)
    ensures grid == Heatmap(scores)
  {
    if scores == [] {
      return [];
    }
    var rows, cols := MaxGoals(scores, HomeGoals) + 1, MaxGoals(scores, AwayGoals) + 1;
    grid := seq(rows, _ => seq(cols, _ => 0.0));
    for k := 0 to |scores|
      invariant |grid| == rows
      invariant forall hg :: 0 <= hg < rows ==> |grid[hg]| == cols
      invariant forall hg, ag :: 0 <= hg < rows && 0 <= ag < cols ==> grid[hg][ag] == CellValue(scores[..k], hg, ag)
    {
      var sc := scores[k];
      assert HomeGoals(sc) < rows && AwayGoals(sc) < cols;
      assert scores[..k + 1][..k] == scores[..k];
      grid := grid[sc.hg := grid[sc.hg][sc.ag := sc.prob]];
    }
    assert scores[..|scores|] == scores;
    forall hg | 0 <= hg < rows ensures grid[hg] == Heatmap(scores)[hg] {
    }
  }
}
