# Markets from Clubelo fixture rows, in Dafny

This project models `calculate_markets_from_api_data` in `app.py`. The sports-iq
backend calls it on every row of the Clubelo fixtures CSV. The row carries two kinds
of precomputed columns:

- 13 goal-difference buckets (`GD<-5` … `GD>5`);
- one probability per correct score, in columns named `R:h-a`.

The function first applies an availability gate. Rows that pass it get:

- the 1X2 probabilities;
- decimal odds for about twenty betting markets;
- the four likeliest correct scores;
- a correct-score grid.

How the source is represented:

- **Rows.** A row is a sequence of `Column(name, value)` in CSV order. A missing or NaN
  cell is `None`. Column order matters: it fixes the order of the score records, and
  so which record wins a grid cell.
- **Numbers.** Probabilities are exact `real`s.
- **`round(x, 2)`.** It is the nearest multiple of 0.01, with ties to the even
  multiple, taken on the exact value.
- **`str.split`, `int()` and its white-space skipping.** These are written out for the characters
  they look at.
- **Loops.** The loop that collects score records (`CollectScores`) and the loop
  that fills the grid (`FillHeatmap`) are methods. Each is proved equal to a
  specification function. `CalculateMarketsFromApiData` runs both and is proved
  equal to `CalculateMarkets`, which the lemmas are about.
- **The exception.** A row can have numeric `R:` columns none of whose names parse.
  The source then builds an empty score table and reads its missing `HG` column, and
  `KeyError` is raised (app.py:49-50). The model returns
  `Err(ScoreTableWithoutColumns)`. The route turns that exception into a 500
  response for the whole request.

Modules:

| module | file | role |
|---|---|---|
| `Wrappers` | wrappers.dfy | `Option` and `Result` |
| `ScoreNames` | score_names.dfy | `split`, `int()` with its white-space skipping, column names `R:h-a`, labels `h-a` |
| `FixtureRow` | fixture_row.dfy | cells, the GD gate, 1X2 sums, `result_cols`, score records |
| `Aggregates` | aggregates.dfy | filter-and-sum and every market probability |
| `OddsFormat` | odds_format.dfy | `round(·, 2)` and `to_odd` |
| `ScoreRanking` | top_scores.dfy | sorting by probability and the top 4 |
| `ScoreGrid` | heatmap.dfy | the correct-score grid |
| `Markets` | markets.dfy | the result object and the whole calculation |

## Model

| member | source | states |
|---|---|---|
| `ScoreNames.Split` | app.py:44 | `str.split` gives at least one piece and no piece contains the separator |
| `ScoreNames.SplitJoin` | app.py:44 | joining the pieces of a split with the separator gives the original text back |
| `ScoreNames.SplitAtFirst` | app.py:44 | the first piece ends at the first separator; the rest is the split of what follows |
| `ScoreNames.SplitNoSeparator` | app.py:44 | a text without the separator splits into itself alone |
| `ScoreNames.StripLeading` | app.py:45 | `int()` drops leading white space (ASCII tab to carriage return and space, and non-ASCII white space): the result is a suffix, everything dropped is white space, and it does not start with white space |
| `ScoreNames.StripTrailing` | app.py:45 | `int()` drops trailing white space (ASCII tab to carriage return and space, and non-ASCII white space): the result is a prefix, everything dropped is white space, and it does not end with white space |
| `ScoreNames.ParseSigned` | app.py:45 | after stripping, `int()` is negative only for a text that starts with `-` |
| `ScoreNames.ParseInt` | app.py:45 | `int()` yields a negative number only when the text contains `-` |
| `ScoreNames.DigitsAreDigitTail` | app.py:45 | a string of digits only is an acceptable digit run for `int()` |
| `ScoreNames.StripDigits` | app.py:45 | a plain digit string is left alone by the white-space strip |
| `ScoreNames.ParseScoreName` | app.py:44-45 | the goals a column name stands for, None where the source raises; its properties are `ScoreTextOf`, `TextAfterSecondColonIgnored`, `ScoreLabelRoundTrip`, `PaddedLabelParses` and `SingleGoalPartRejected` |
| `ScoreNames.ParseGoals` | app.py:44-45 | the goals of the text after `R:`; its properties are `GoalsOfPieces`, `GoalsOfNumerals`, `ExtraGoalPartsIgnored` and `PaddedGoalsParse` |
| `ScoreNames.ScoreLabel` | app.py:84 | the label `f"{h}-{a}"` of a top score; `ScoreLabelRoundTrip` proves it parses back to `(h, a)` |
| `ScoreNames.DigitRunOfDigits` | app.py:45 | a non-empty all-digit text is an unsigned digit run |
| `ScoreNames.ParseIntOfDigits` | app.py:45 | `int()` of a plain digit string is its decimal value |
| `ScoreNames.NatToString` | app.py:84 | the numeral of a goal count is non-empty decimal digits with no leading zero |
| `ScoreNames.NatToStringValue` | app.py:84 | the numeral's digits denote the number |
| `ScoreNames.ParseIntNatToString` | app.py:45 | `int(str(n)) == n` for every goal count |
| `ScoreNames.ZerosPrefixValue` | app.py:45 | leading zeros add nothing to the value of a digit text |
| `ScoreNames.PaddedNumeralDigits` | app.py:45 | a zero-padded numeral consists of digits only |
| `ScoreNames.LeadingZeroIgnored` | app.py:45 | `int()` reads a goal count written with any number of leading zeros as the count itself |
| `ScoreNames.PaddedGoalsParse` | app.py:44-45 | the score text zero-padded h + `-` + zero-padded a holds no `:` and reads as `(h, a)` for every h, a and padding |
| `ScoreNames.PaddedLabelParses` | app.py:44-45 | a column name `R:` + zero-padded h + `-` + zero-padded a parses to `(h, a)` for every h, a and padding |
| `ScoreNames.ScoreTextOf` | app.py:44 | the score text of `p:seg` and of `p:seg:tail` is `seg` when `p` and `seg` have no `:` |
| `ScoreNames.GoalsOfPieces` | app.py:44-45 | two dash-free pieces that `int()` reads, joined by `-`, give the pair of their values |
| `ScoreNames.GoalPieces` | app.py:44 | `x-y` and `x-y-rest` split with `x` and `y` as the first two pieces |
| `ScoreNames.GoalsOfNumerals` | app.py:44-45 | the goal text `h-a`, with or without more `-` parts, parses to `(h, a)` |
| `ScoreNames.ScoreLabelRoundTrip` | app.py:84 | the label `"h-a"` of a top score, with `R:` in front, parses back to `(h, a)` |
| `ScoreNames.ExtraGoalPartsIgnored` | app.py:44-45 | parts after the second `-` of the score text do not matter |
| `ScoreNames.TextAfterSecondColonIgnored` | app.py:44 | only the text between the first and second `:` is read |
| `ScoreNames.SingleGoalPartRejected` | app.py:44-48 | a score text without `-` raises ValueError or IndexError in the source, so the column is skipped |
| `ScoreNames.SeparatorNotStripped` | app.py:45-48 | `int()` rejects every text starting with the ASCII separator \x1c, which it does not skip |
| `FixtureRow.Value` | app.py:29 | a cell value exists only for a column of that label; an absent label gives None; a present label gives the cell of its first column |
| `FixtureRow.GdComplete` | app.py:28-30 | the first availability gate: every GD bucket present and not NaN; `CalculateMarkets` states that failing it gives `{odds_available: False}` |
| `FixtureRow.OneXTwo` | app.py:32-34 | p_home, p_draw and p_away; their properties are `OneXTwoPartition` and `OneXTwoAreProbabilities` |
| `FixtureRow.BucketSumConcat` | app.py:32-34 | the sum over two bucket lists is the sum of the two sums |
| `FixtureRow.BucketsNonNegative` | app.py:32-34 | non-negative buckets have a non-negative sum |
| `FixtureRow.BucketsNonNegativeConcat` | app.py:32-34 | non-negative buckets split into two lists give two non-negative sums |
| `FixtureRow.OneXTwoPartition` | app.py:32-34 | p_home + p_draw + p_away equals the sum of all 13 GD buckets |
| `FixtureRow.OneXTwoAreProbabilities` | app.py:32-34 | for a bucket distribution, 1X2 and each double-chance sum lie in [0, 1] |
| `FixtureRow.ResultColumns` | app.py:37-39 | result_cols holds exactly the columns labelled `R:…` that hold a number, each with that number; it is empty iff there is none |
| `FixtureRow.ResultColumnsConcat` | app.py:37 | result_cols keeps column order: the result columns of a row split in two are those of the first part followed by those of the second |
| `FixtureRow.ParsedScores` | app.py:41-48 | each result column gives at most one record; `ParsedScoresConcat` states that every column's record is kept, in column order |
| `FixtureRow.ParsedScoresConcat` | app.py:41-48 | scores_data of two runs of columns is the first run's records followed by the second's, duplicates included |
| `FixtureRow.ParsedScoresLast` | app.py:41-48 | scores_data of a row gains exactly the last column's record, if its name parses |
| `FixtureRow.ParsedScoresMembers` | app.py:41-48 | a record is in scores_data iff some result column's name parses to its goals with its probability |
| `FixtureRow.CollectScores` | app.py:41-48 | the parsing loop yields exactly the records of the parseable columns, in column order, as `ParsedScoresConcat` spells out |
| `Aggregates.SumWhere` | app.py:55-80 | `df_scores.loc[filter, 'Prob'].sum()`; its properties are `SumWhereSplit`, `SumWhereMonotone`, `SumWhereComplement` and `SumWhereBounds` |
| `Aggregates.ScoreMarkets` | app.py:55-80 | every market probability; its properties are `OversAreMassAbove`, `GoalRangesPartitionMass`, `ResultAndBttsSplitBtts`, `LinesAreOrdered` and `MarketsAreProbabilities` |
| `Aggregates.SumWhereSplit` | app.py:55-80 | two disjoint filters that together make a third split its sum |
| `Aggregates.SumWhereMonotone` | app.py:55-80 | with non-negative probabilities a narrower filter never sums to more |
| `Aggregates.SumWhereComplement` | app.py:55-71 | a filter's sum plus its negation's sum is the parsed mass |
| `Aggregates.SumWhereBounds` | app.py:55-80 | with non-negative probabilities every market sum lies between 0 and the parsed mass |
| `Aggregates.OversAreMassAbove` | app.py:55-71 | over 0.5/1.5/2.5/3.5 and BTTS "no" equal the mass above the line (or of not-both-score) plus the shortfall 1 − mass |
| `Aggregates.GoalRangesPartitionMass` | app.py:78-80 | goals 0-1, 2-3 and 4+ add up to the whole parsed mass |
| `Aggregates.ResultAndBttsSplitBtts` | app.py:70-75 | home+BTTS and away+BTTS are disjoint and inside BTTS-yes; BTTS-yes is their sum plus the scoring draws |
| `Aggregates.LinesAreOrdered` | app.py:55-75 | with non-negative probabilities, over 3.5 ≤ 2.5 ≤ 1.5 ≤ 0.5, team over 1.5 ≤ over 0.5, home+away BTTS ≤ BTTS-yes |
| `Aggregates.MarketsAreProbabilities` | app.py:55-80 | when the parsed scores form a distribution every market probability lies in [0, 1] |
| `OddsFormat.Round2` | app.py:25 | `round(x, 2)` is within 0.005 of x, a whole number of hundredths, and at least 1 when x is |
| `OddsFormat.ToOdd` | app.py:23-25 | `to_odd` is null exactly when p ≤ 0, else within 0.005 of 1/p, and at least 1 for 0 < p ≤ 1 |
| `ScoreRanking.Insert` | app.py:83 | insertion adds exactly one element and keeps the others |
| `ScoreRanking.SortDescending` | app.py:83 | the sorted table is a permutation of the records |
| `ScoreRanking.InsertDescending` | app.py:83 | inserting into a descending list keeps it descending |
| `ScoreRanking.SortDescendingSorts` | app.py:83 | the sorted table is in non-increasing probability order |
| `ScoreRanking.PrefixDescending` | app.py:83 | a prefix of a descending table is descending |
| `ScoreRanking.PrefixDominates` | app.py:83 | after a descending sort nothing past position n is likelier than anything before it |
| `ScoreRanking.TopScores` | app.py:83 | the first min(4, n) records of the sorted table; `TopScoresAreTheLikeliest` states what they are |
| `ScoreRanking.TopScoresAreTheLikeliest` | app.py:83 | the head holds min(4, n) records in non-increasing order, drawn from the records, with no left-out record likelier than any kept one |
| `ScoreGrid.MaxGoals` | app.py:132-133 | the column maximum bounds every record and is attained by one |
| `ScoreGrid.CellValue` | app.py:137-141 | the value a cell ends with; `CellValueUnset` and `CellValueLastWins` state it |
| `ScoreGrid.Heatmap` | app.py:130-141 | the grid the source returns; `HeatmapShape`, `HeatmapCells` and `FillHeatmap` state it |
| `ScoreGrid.CellValueUnset` | app.py:137 | a cell no record names stays 0.0 |
| `ScoreGrid.CellValueLastWins` | app.py:138-141 | a cell holds the probability of the last record for its score |
| `ScoreGrid.HeatmapShape` | app.py:132-137 | the grid has max HG + 1 rows of max AG + 1 cells, and every record's cell lies inside |
| `ScoreGrid.HeatmapCells` | app.py:130-141 | the grid has max HG + 1 rows, each of max AG + 1 cells; each record's cell is inside and holds the last such record's probability; other cells are 0.0 |
| `ScoreGrid.FillHeatmap` | app.py:130-141 | allocating the zero grid and writing each record in order gives that grid |
| `Markets.TopCorrectScores` | app.py:83-84 | the topCorrectScores list; `TopCorrectScoresAreParsedRecords` states what it holds |
| `Markets.BuildOdds` | app.py:92-127 | the odds object; `DistributionsGiveSensibleOdds` and `UnitProbabilitiesGiveSensibleOdds` state that its odds are null or at least 1 |
| `Markets.CalculateMarkets` | app.py:28-50 | the result is `{odds_available: False}` iff a GD bucket is missing or NaN or no `R:` column has a number; it raises iff such columns exist but none parses |
| `Markets.CalculateMarketsFromApiData` | app.py:18-148 | the function with its two loops computes exactly the modelled result |
| `Markets.TopCorrectScoresAreParsedRecords` | app.py:83-84 | at most 4 top scores; each label parses back to a parsed record's goals, with that record's odd |
| `Markets.BuiltResultShape` | app.py:143-148 | 1X2 sums to the bucket mass; the grid is rectangular and holds every record; at most 4 top scores |
| `Markets.AvailableResultShape` | app.py:143-148 | a successful result has 1X2 summing to the bucket mass, a rectangular grid holding every parsed score, and at most 4 top scores |
| `Markets.DistributionsGiveSensibleOdds` | app.py:92-126 | when buckets and scores are distributions, every odd in the result is null or at least 1 |
| `Markets.BuiltOddsSensible` | app.py:92-126 | odds built from bucket and score distributions are null or at least 1 |
| `Markets.PlainNameParses` | app.py:44-45 | `R:1-1` names the score 1-1 |
| `Markets.PaddedNameParses` | app.py:44-45 | `R:01-01` names the score 1-1 as well |
| `Markets.PlainColumnParses` | app.py:41-48 | the column `R:1-1` gives the record 1-1 with its probability |
| `Markets.PaddedColumnParses` | app.py:41-48 | the column `R:01-01` gives the record 1-1 with its probability |
| `Markets.DuplicateColumnsParse` | app.py:41-48 | both same-score columns become records, in column order |
| `Markets.DuplicateScoresMarkets` | app.py:70-141 | both same-score records count in BTTS; the later one fills the grid cell |
| `Markets.DuplicateScoreColumns` | app.py:41-141 | two columns for one score both count in every sum, and the later one wins in the grid |

## Left out

- The Flask routes `home` and `get_fixtures` (app.py:152-185) are not modelled. They cover the HTTP request, CSV parsing, `jsonify` and the 500 responses, which are all I/O. Each CSV row's own fields are merged with the market dictionary (app.py:171-177); that merge is not modelled either.
- Floating point is not modelled. Sums are exact reals. `round` acts on the exact value, not on a binary double.
- pandas machinery is not modelled: `.loc`, `sort_values`, `iterrows`, dtype coercion. They are replaced by sequences of records.
- `FixtureRow.Value` takes the first column with a label. pandas `read_csv` renames duplicate labels, so a row never has two.
- Cells are numbers or missing. Text cells (date, teams, country) are not distinguished, because the calculation reads only the GD and `R:` columns.
- `ScoreNames.ParseInt` and `ScoreGrid.Heatmap`: goal counts are unbounded in the model. From Python 3.11, `int()` refuses decimal texts longer than 4300 digits with ValueError, which app.py:47 catches, so such a column is skipped by the source but parsed by the model. A huge goal count makes the grid allocation at app.py:137 run out of memory, while `Heatmap` returns a grid. Neither limit is modelled.
- `ScoreNames.ParseInt` accepts ASCII digits only. Python's `int()` also accepts other Unicode decimal digits.
- `ScoreRanking.Insert` and `ScoreRanking.SortDescending` fix tie order, and through them so do `ScoreRanking.TopScores` and the `topCorrectScores` of `Markets.CalculateMarkets`; the source does not. pandas' default sort is not stable, so the source leaves the order of equally likely scores open. The model breaks ties by column order, which is one order pandas may produce. `ScoreRanking.TopScoresAreTheLikeliest` holds for any choice among ties.
- The emptiness guard (app.py:131) and the `pd.notna` guards (app.py:136, 140) on the grid always pass in the model. Goal counts are natural numbers and the record list is non-empty at that point.
- The unused `scipy.stats.poisson` import and the unused `MAX_GOALS` constant (app.py:5, 9) are not modelled.
- The browser client (filters, table, chart, heatmap colouring) is not part of this model.
