/**
 * The four likeliest correct scores (app.py:83-84):
 * df_scores.sort_values(by='Prob', ascending=False).head(4).
 */
module ScoreRanking {
  import opened FixtureRow

  /** How many correct scores the odds list keeps. */
  const TopCount: nat := 4

  /** Non-increasing probability, front to back. */
  predicate Descending(s: seq<Score>)
  {
    forall i, j :: 0 <= i < j < |s| ==> s[i].prob >= s[j].prob
  }

  predicate AllAtMost(s: seq<Score>, bound: real)
  {
    forall i :: 0 <= i < |s| ==> s[i].prob <= bound
  }

  /** Put x in front of the first record that is no likelier than it. */
  function Insert(x: Score, s: seq<Score>): (r: seq<Score>)
    ensures |r| == |s| + 1
    ensures multiset(r) == multiset(s) + multiset{x}
  {
    if s == [] || x.prob >= s[0].prob then [x] + s
    else
      assert s == [s[0]] + s[1..];
      [s[0]] + Insert(x, s[1..])
  }

  /** The records ordered by probability, likeliest first. */
  function SortDescending(s: seq<Score>): (r: seq<Score>)
    ensures |r| == |s|
    ensures multiset(r) == multiset(s)
  {
    if s == [] then []
    else
      assert s == [s[0]] + s[1..];
      Insert(s[0], SortDescending(s[1..]))
  }

  lemma {:induction false} InsertBounded(x: Score, s: seq<Score>, bound: real)
    requires x.prob <= bound && AllAtMost(s, bound)
    ensures AllAtMost(Insert(x, s), bound)
  {
    if s != [] && x.prob < s[0].prob {
      InsertBounded(x, s[1..], bound);
    }
  }

  lemma {:induction false} InsertDescending(x: Score, s: seq<Score>)
    requires Descending(s)
    ensures Descending(Insert(x, s))
  {
    if s != [] && x.prob < s[0].prob {
      var tail := Insert(x, s[1..]);
      InsertDescending(x, s[1..]);
      InsertBounded(x, s[1..], s[0].prob);
      var r := [s[0]] + tail;
      forall i, j | 0 <= i < j < |r| ensures r[i].prob >= r[j].prob {
        if i > 0 {
          assert r[i] == tail[i - 1] && r[j] == tail[j - 1];
        } else {
          assert r[j] == tail[j - 1];
        }
      }
    }
  }

  lemma {:induction false} SortDescendingSorts(s: seq<Score>)
    ensures Descending(SortDescending(s))
  {
    if s != [] {
      SortDescendingSorts(s[1..]);
      InsertDescending(s[0], SortDescending(s[1..]));
    }
  }

  /** top_4_cs: the first TopCount records of the sorted table. */
  function TopScores(scores: seq<Score>): seq<Score>
  {
    var sorted := SortDescending(scores);
    if |sorted| <= TopCount then sorted else sorted[..TopCount]
  }

  lemma PrefixDescending(sorted: seq<Score>, n: nat)
    requires Descending(sorted) && n <= |sorted|
    ensures Descending(sorted[..n])
  {
    var top := sorted[..n];
    forall i, j | 0 <= i < j < |top| ensures top[i].prob >= top[j].prob {
      assert top[i] == sorted[i] && top[j] == sorted[j];
    }
  }

  /** In a descending sequence, everything after position n is no likelier than anything before it. */
  lemma PrefixDominates(sorted: seq<Score>, n: nat)
    requires Descending(sorted) && n <= |sorted|
    ensures forall x, y :: x in multiset(sorted[n..]) && y in multiset(sorted[..n]) ==> x.prob <= y.prob
  {
    var top, rest := sorted[..n], sorted[n..];
    forall x: Score, y: Score | x in multiset(rest) && y in multiset(top)
      ensures x.prob <= y.prob
    {
      assert x in rest && y in top;
      var j :| 0 <= j < |rest| && rest[j] == x;
      var i :| 0 <= i < |top| && top[i] == y;
      assert sorted[i] == y && sorted[n + j] == x;
    }
  }

  /**
   * The top list holds min(4, n) of the records, likeliest first, and no
   * record left out is likelier than any record kept; which of several equally
   * likely records is kept is not fixed by this statement.
   */
  lemma TopScoresAreTheLikeliest(scores: seq<Score>)
    ensures var top := TopScores(scores);
      && |top| == (if |scores| < TopCount then |scores| else TopCount)
      && Descending(top)
      && multiset(top) <= multiset(scores)
      && forall x, y :: x in multiset(scores) - multiset(top) && y in multiset(top) ==> x.prob <= y.prob
  {
    var sorted := SortDescending(scores);
    SortDescendingSorts(scores);
    var n := if |sorted| <= TopCount then |sorted| else TopCount;
    var top, rest := sorted[..n], sorted[n..];
    assert TopScores(scores) == top;
    PrefixDescending(sorted, n);
    PrefixDominates(sorted, n);
    assert sorted == top + rest;
    assert multiset(scores) == multiset(top) + multiset(rest);
    assert multiset(scores) - multiset(top) == multiset(rest);
  }
}
