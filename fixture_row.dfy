/**
 * One fixture row as the markets calculation sees it (app.py, lines 28-48):
 * the goal-difference bucket columns, the 1X2 sums over them, and the
 * correct-score records read from the "R:" columns.
 */
module FixtureRow {
  import opened Wrappers
  import opened ScoreNames

  /** One cell of the row: its column label and its number, None when missing or NaN. */
  datatype Column = Column(name: string, value: Option<real>)

  /** The row, its columns in CSV order. */
  type Row = seq<Column>

  /** row[name] when the label is present and the cell not NaN; None otherwise. */
  function Value(row: Row, name: string): (v: Option<real>)
    ensures (forall i :: 0 <= i < |row| ==> row[i].name != name) ==> v == None
    ensures v.Some? ==> exists i :: 0 <= i < |row| && row[i].name == name && row[i].value == v
    ensures forall i :: 0 <= i < |row| && row[i].name == name && (forall j :: 0 <= j < i ==> row[j].name != name) ==> v == row[i].value
  {
    if row == [] then None
    else if row[0].name == name then row[0].value
    else Value(row[1..], name)
  }

  // ---------------------------------------------------------------------
  // Goal-difference buckets and the 1X2 probabilities
  // ---------------------------------------------------------------------

  /** Buckets with a positive difference: a home win. */
  const HomeBuckets: seq<string> := ["GD=1", "GD=2", "GD=3", "GD=4", "GD=5", "GD>5"]

  /** The zero-difference bucket: a draw. */
  const DrawBucket: string := "GD=0"

  /** Buckets with a negative difference: an away win. */
  const AwayBuckets: seq<string> := ["GD<-5", "GD=-5", "GD=-4", "GD=-3", "GD=-2", "GD=-1"]

  /** The thirteen goal-difference columns, "GD<-5" up to "GD>5", in the order the source checks them. */
  const GdColumns: seq<string> := AwayBuckets + [DrawBucket] + HomeBuckets

  predicate AllPresent(row: Row, names: seq<string>)
  {
    forall i :: 0 <= i < |names| ==> Value(row, names[i]).Some?
  }

  /** The availability gate's first half: every bucket column present and not NaN. */
  predicate GdComplete(row: Row)
  {
    AllPresent(row, GdColumns)
  }

  /** The sum of the named cells (pandas row[names].sum()). */
  function BucketSum(row: Row, names: seq<string>): real
    requires AllPresent(row, names)
  {
    if names == [] then 0.0 else Value(row, names[0]).value + BucketSum(row, names[1..])
  }

  lemma {:induction false} BucketSumConcat(row: Row, a: seq<string>, b: seq<string>)
    requires AllPresent(row, a + b)
    ensures AllPresent(row, a) && AllPresent(row, b)
    ensures BucketSum(row, a + b) == BucketSum(row, a) + BucketSum(row, b)
  {
    assert forall i :: 0 <= i < |a| ==> a[i] == (a + b)[i];
    assert forall i :: 0 <= i < |b| ==> b[i] == (a + b)[|a| + i];
    if a != [] {
      assert (a + b)[1..] == a[1..] + b;
      BucketSumConcat(row, a[1..], b);
    } else {
      assert a + b == b;
    }
  }

  /** The three 1X2 probabilities of the result. */
  datatype Probabilities = Probabilities(homeWin: real, draw: real, awayWin: real)

  /** p_home, p_draw and p_away (app.py:32-34). */
  function OneXTwo(row: Row): Probabilities
    requires GdComplete(row)
  {
    BucketSumConcat(row, AwayBuckets + [DrawBucket], HomeBuckets);
    BucketSumConcat(row, AwayBuckets, [DrawBucket]);
    Probabilities(BucketSum(row, HomeBuckets), Value(row, DrawBucket).value, BucketSum(row, AwayBuckets))
  }

  /** Home, draw and away split the thirteen buckets: together they are the whole bucket mass. */
  lemma OneXTwoPartition(row: Row)
    requires GdComplete(row)
    ensures var p := OneXTwo(row); p.homeWin + p.draw + p.awayWin == BucketSum(row, GdColumns)
  {
    BucketSumConcat(row, AwayBuckets + [DrawBucket], HomeBuckets);
    BucketSumConcat(row, AwayBuckets, [DrawBucket]);
    assert BucketSum(row, [DrawBucket]) == Value(row, DrawBucket).value + BucketSum(row, []);
  }

  /** With non-negative buckets summing to one, the 1X2 and double-chance sums are probabilities. */
  lemma OneXTwoAreProbabilities(row: Row)
    requires GdComplete(row)
    requires forall i :: 0 <= i < |GdColumns| ==> Value(row, GdColumns[i]).value >= 0.0
    requires BucketSum(row, GdColumns) == 1.0
    ensures var p := OneXTwo(row);
      && 0.0 <= p.homeWin <= 1.0 && 0.0 <= p.draw <= 1.0 && 0.0 <= p.awayWin <= 1.0
      && p.homeWin + p.draw <= 1.0 && p.homeWin + p.awayWin <= 1.0 && p.draw + p.awayWin <= 1.0
  {
    var p := OneXTwo(row);
    assert p.homeWin + p.draw + p.awayWin == 1.0 by {
      OneXTwoPartition(row);
    }
    assert p.homeWin >= 0.0 && p.draw >= 0.0 && p.awayWin >= 0.0 by {
      BucketsNonNegativeConcat(row, AwayBuckets + [DrawBucket], HomeBuckets);
      BucketsNonNegativeConcat(row, AwayBuckets, [DrawBucket]);
      assert BucketSum(row, [DrawBucket]) == Value(row, DrawBucket).value + BucketSum(row, []);
    }
  }

  lemma BucketsNonNegativeConcat(row: Row, a: seq<string>, b: seq<string>)
    requires AllPresent(row, a + b)
    requires forall i :: 0 <= i < |a + b| ==> Value(row, (a + b)[i]).value >= 0.0
    ensures AllPresent(row, a) && AllPresent(row, b)
    ensures forall i :: 0 <= i < |a| ==> Value(row, a[i]).value >= 0.0
    ensures BucketSum(row, a) >= 0.0 && BucketSum(row, b) >= 0.0
  {
    assert forall i :: 0 <= i < |a| ==> a[i] == (a + b)[i];
    assert forall i :: 0 <= i < |b| ==> b[i] == (a + b)[|a| + i];
    BucketsNonNegative(row, a);
    BucketsNonNegative(row, b);
  }

  lemma {:induction false} BucketsNonNegative(row: Row, names: seq<string>)
    requires AllPresent(row, names)
    requires forall i :: 0 <= i < |names| ==> Value(row, names[i]).value >= 0.0
    ensures BucketSum(row, names) >= 0.0
  {
    if names != [] {
      BucketsNonNegative(row, names[1..]);
    }
  }

  // ---------------------------------------------------------------------
  // Correct-score columns and records
  // ---------------------------------------------------------------------

  predicate StartsWith(s: string, prefix: string)
  {
    |prefix| <= |s| && s[..|prefix|] == prefix
  }

  /** A column the source keeps in result_cols: labelled "R:..." with a number in it. */
  predicate IsScoreColumn(c: Column)
  {
    StartsWith(c.name, "R:") && c.value.Some?
  }

  /** An entry of result_cols. */
  datatype ResultColumn = ResultColumn(name: string, prob: real)

  /** result_cols (app.py:37), in column order. */
  function ResultColumns(row: Row): (cols: seq<ResultColumn>)
    ensures |cols| <= |row|
    ensures cols == [] <==> forall i :: 0 <= i < |row| ==> !IsScoreColumn(row[i])
    ensures forall j :: 0 <= j < |cols| ==> StartsWith(cols[j].name, "R:")
    ensures forall c :: c in cols <==>
      StartsWith(c.name, "R:") && exists i :: 0 <= i < |row| && row[i] == Column(c.name, Some(c.prob))
  {
    if row == [] then []
    else
      var here := if IsScoreColumn(row[0]) then [ResultColumn(row[0].name, row[0].value.value)] else [];
      assert forall i :: 1 <= i < |row| ==> row[i] == row[1..][i - 1];
      here + ResultColumns(row[1..])
  }

  /** result_cols keeps column order: the columns of a row split in two give the two parts' result columns, one after the other. */
  lemma {:induction false} ResultColumnsConcat(a: Row, b: Row)
    ensures ResultColumns(a + b) == ResultColumns(a) + ResultColumns(b)
  {
    if a != [] {
      assert (a + b)[0] == a[0];
      assert (a + b)[1..] == a[1..] + b;
      ResultColumnsConcat(a[1..], b);
    } else {
      assert a + b == b;
    }
  }

  /** One record of scores_data: goals of each side and the probability of that score. */
  datatype Score = Score(hg: nat, ag: nat, prob: real)

  /** The record a result column yields, or None when its name does not parse. */
  function ScoreOf(c: ResultColumn): Option<Score>
  {
    match ParseScoreName(c.name)
    case Some((h, a)) => Some(Score(h, a, c.prob))
    case None => None
  }

  /** scores_data: the records of the columns whose names parse, in column order. */
  function ParsedScores(cols: seq<ResultColumn>): (scores: seq<Score>)
    ensures |scores| <= |cols|
  {
    if cols == [] then []
    else
      var init := ParsedScores(cols[..|cols| - 1]);
      match ScoreOf(cols[|cols| - 1])
      case Some(sc) => init + [sc]
      case None => init
  }

  /** scores_data grows by the last column's record, when its name parses. */
  lemma ParsedScoresLast(cols: seq<ResultColumn>, sc: Score)
    requires cols != []
    ensures sc in ParsedScores(cols)
      <==> sc in ParsedScores(cols[..|cols| - 1]) || ScoreOf(cols[|cols| - 1]) == Some(sc)
  {
  }

  /** A last column that parses appends its record to scores_data. */
  lemma ParsedScoresAppend(cols: seq<ResultColumn>, sc: Score)
    requires cols != [] && ScoreOf(cols[|cols| - 1]) == Some(sc)
    ensures ParsedScores(cols) == ParsedScores(cols[..|cols| - 1]) + [sc]
  {
  }

  /** A single column that parses yields exactly its record. */
  lemma ParsedScoresOfOne(c: ResultColumn, sc: Score)
    requires ScoreOf(c) == Some(sc)
    ensures ParsedScores([c]) == [sc]
  {
    assert [c][..0] == [];
  }

  /** Some column yields sc exactly when some column but the last does, or the last one does. */
  lemma SomeColumnYields(cols: seq<ResultColumn>, init: seq<ResultColumn>, sc: Score)
    requires cols != [] && init == cols[..|cols| - 1]
    ensures (exists i :: 0 <= i < |cols| && ScoreOf(cols[i]) == Some(sc))
      <==> (exists i :: 0 <= i < |init| && ScoreOf(init[i]) == Some(sc)) || ScoreOf(cols[|cols| - 1]) == Some(sc)
  {
    if exists i :: 0 <= i < |cols| && ScoreOf(cols[i]) == Some(sc) {
      var i :| 0 <= i < |cols| && ScoreOf(cols[i]) == Some(sc);
      if i < |cols| - 1 {
        assert init[i] == cols[i];
      }
    }
    if exists i :: 0 <= i < |init| && ScoreOf(init[i]) == Some(sc) {
      var i :| 0 <= i < |init| && ScoreOf(init[i]) == Some(sc);
      assert cols[i] == init[i];
    }
  }

  /** scores_data of split columns is the first part's records followed by the second's: every column counts, in order. */
  lemma {:induction false} ParsedScoresConcat(a: seq<ResultColumn>, b: seq<ResultColumn>)
    ensures ParsedScores(a + b) == ParsedScores(a) + ParsedScores(b)
    decreases |b|
  {
    if b == [] {
      assert a + b == a;
    } else {
      var init, last := b[..|b| - 1], b[|b| - 1];
      assert (a + b)[..|a + b| - 1] == a + init;
      assert (a + b)[|a + b| - 1] == last;
      ParsedScoresConcat(a, init);
      match ScoreOf(last)
      case Some(sc) =>
        calc {
          ParsedScores(a + b);
        ==
          ParsedScores(a + init) + [sc];
        ==
          (ParsedScores(a) + ParsedScores(init)) + [sc];
        ==
          ParsedScores(a) + (ParsedScores(init) + [sc]);
        ==
          ParsedScores(a) + ParsedScores(b);
        }
      case None =>
    }
  }

  /** A record is in scores_data exactly when some column parses to it; no other records appear. */
  lemma {:induction false} ParsedScoresMembers(cols: seq<ResultColumn>, sc: Score)
    ensures sc in ParsedScores(cols) <==> exists i :: 0 <= i < |cols| && ScoreOf(cols[i]) == Some(sc)
  {
    if cols != [] {
      var init := cols[..|cols| - 1];
      var last := cols[|cols| - 1];
      calc {
        sc in ParsedScores(cols);
      == { ParsedScoresLast(cols, sc); }
        sc in ParsedScores(init) || ScoreOf(last) == Some(sc);
      == { ParsedScoresMembers(init, sc); }
        (exists i :: 0 <= i < |init| && ScoreOf(init[i]) == Some(sc)) || ScoreOf(last) == Some(sc);
      == { SomeColumnYields(cols, init, sc); }
        exists i :: 0 <= i < |cols| && ScoreOf(cols[i]) == Some(sc);
      }
    }
  }

  /** The loop of app.py:41-48: parse each result column, skip the ones that raise. */
  method CollectScores(cols: seq<ResultColumn>) returns (scores: seq<Score>)
    ensures scores == ParsedScores(cols)
  {
    scores := [];
    for i := 0 to |cols|
      invariant scores == ParsedScores(cols[..i])
    {
      assert cols[..i + 1][..i] == cols[..i];
      match ParseScoreName(cols[i].name) {
        case Some((h, a)) =>
          scores := scores + [Score(h, a, cols[i].prob)];
        case None =>
      }
    }
    assert cols[..|cols|] == cols;
  }
}
