# Chess-Analysis: time control, results and blunders

This project is a Dafny model of `script.py`. The script reads a PGN
collection and sorts its games into three time-control buckets: bullet,
blitz and classical. Each bucket is capped. The script then counts each
accepted game's blunders with a chess engine and reports, per bucket, the
win rate, the draw rate and the mean number of blunders.

The model has six modules:

- `Games` (games.dfy) holds a game record. A game is its `TimeControl`
  and `Result` headers, each of which may be absent, and the relative
  score the engine gives after each half-move (`Mate` or `Cp(centipawns)`).
- `Classification` (classify.dfy) holds the substring rule that maps a
  `TimeControl` header to a bucket.
- `Categorizer` (categorizer.dfy) models `parse_pgn_games`. The class
  `Buckets` holds the three game lists, their counters and the results
  list, and `Offer` files one game. `ParsePgnGames` runs the read loop over
  a finite sequence of game records. Both are proved against `Admit`, a
  function that gives the accepted games in arrival order.
- `BlunderAnalysis` (blunders.dfy) models the counting loop of
  `analyze_blunders` over the engine's scores.
- `Stats` (stats.dfy) models the table rows, the per-bucket selection and
  `calculate_stats`. Rates are exact rationals.
- `Pipeline` (pipeline.dfy) models `main` up to the report: the
  flattening loop, the map of `analyze_blunders` over the flattened games,
  and the three-column table.

## Model

| member | source | states |
|---|---|---|
| Games.TimeControlHeader | script.py:48 | The `TimeControl` header's value when the game has one, and the literal "classical" when it does not. |
| Games.ResultHeader | script.py:61 | The `Result` header's value when the game has one, and "*" (unknown result) when it does not. |
| Classification.Classify | script.py:49-54 | The first matching rule wins. A header is bullet exactly when it contains "60". It is blitz exactly when it lacks "60" and contains "300". Otherwise it is classical. "Contains" here is the independent substring definition `Occurs`. |
| Classification.ContainsIffOccurs | script.py:49-51 | The executable substring test holds exactly when the needle occurs at some position of the header. |
| Classification.CategoryOf | script.py:48-54 | A game with a `TimeControl` header is classified by that header. A game without one falls back to the string "classical", which contains neither "60" nor "300", so it lands in classical. |
| Classification.HeuristicExamples | script.py:49-54 | "60+0" is bullet and "300+0" is blitz. "600+0" is bullet, because it contains "60". "180+2" is classical. |
| Categorizer.Buckets.constructor | script.py:39-41 | Starts with three empty lists, three zero counters and no results. |
| Categorizer.Buckets.Offer | script.py:58-61 | A game is accepted exactly when its bucket's counter is below the cap. On acceptance, its list grows by the game, its counter by one and the results by the game's `Result` header (default "*"). On rejection nothing changes. Either way the counters equal the list lengths and the state matches `Admit` of everything offered. |
| Categorizer.Buckets.AllFull | script.py:67 | The stop test holds exactly when every bucket of the accepted games has reached the cap. |
| Categorizer.ParsePgnGames | script.py:38-76 | The loop stops at the end of the source or at the first record after which every bucket is full, and at no earlier point. Each bucket's list is the first `cap` games of that category, in source order. No bucket exceeds the cap. The results are the headers of the accepted games in arrival order, and there are as many of them as games in the three lists together. |
| Categorizer.Bucket | script.py:58-59 | The games of one category, in source order, are never more than the source. |
| Categorizer.BucketAppend | script.py:58-59 | One more game of category `c` extends that category's list by it, and a game of another category leaves it alone. |
| Categorizer.AdmitFromSource | script.py:58-61 | The accepted games (the function `Admit`, which offers every record in turn and keeps it exactly when its bucket holds fewer than `cap` accepted games) are drawn from the source. None is invented or accepted twice: they form a sub-multiset of the source and are never more than the records. |
| Categorizer.AdmitAppend | script.py:58-61 | One more offered game is accepted exactly when its bucket still holds fewer than `cap` accepted games. |
| Categorizer.AdmitBucket | script.py:58-60 | The accepted games of a category are exactly the first `cap` games of that category in the source, in source order. |
| Categorizer.AdmitBounded | script.py:58 | No bucket ever holds more than the cap. |
| Categorizer.BucketPartition | script.py:49-54 | The three categories split any sequence of games: together they are a permutation of it, and their lengths add up to its length. |
| Categorizer.SaturatedAdmitsNothing | script.py:67-68 | Once every bucket is full, no further record is accepted, so stopping early loses nothing. |
| Categorizer.StopLosesNothing | script.py:43-68 | Stopping at the end of the source, or at a point where all buckets are full, gives the same accepted games as reading the whole source. |
| Categorizer.TracksAccept | script.py:58-61 | Appending a game to its bucket and its result to the results list keeps the state equal to `Admit` of the extended source, when the bucket was below the cap. |
| Categorizer.TracksReject | script.py:58 | Skipping a game whose bucket is full keeps the state equal to `Admit` of the extended source. |
| Categorizer.AcceptedState | script.py:58-61 | A state that matches `Admit` of the whole source has each list equal to the first `cap` games of its category. Its results count equals the three list lengths added together. |
| BlunderAnalysis.AnalyzeBlunders | script.py:8-35 | The loop returns the number of half-moves, from the 20th on, whose score is not a mate and whose magnitude is above 200 centipawns. |
| BlunderAnalysis.BlundersCountPlies | script.py:17-31 | The recursive count equals the size of the set of blunder positions. |
| BlunderAnalysis.ShortGameHasNoBlunders | script.py:17-21 | A game of fewer than 20 half-moves has no blunders, whatever its scores. |
| BlunderAnalysis.BlundersBounded | script.py:17-31 | A game of n half-moves has at most max(0, n - 19) blunders. |
| BlunderAnalysis.MateIsNeverCounted | script.py:28-29 | Replacing any score by a mate removes exactly that position from the blunders. |
| BlunderAnalysis.ThresholdIsStrict | script.py:30 | ±200 centipawns is not a blunder and ±201 is. |
| BlunderAnalysis.UniformScores | script.py:17-31 | With one score on every half-move, the count is n - 19 when that score is a blunder and the game has at least 20 half-moves, and 0 otherwise. So the bound above is reached. |
| Stats.Subset | script.py:122 | Selecting one label never yields more rows than the table has. |
| Stats.SubsetSpec | script.py:122 | For any table, every selected row is a row of the table carrying the label, and every row carrying the label is selected. |
| Stats.SubsetCount | script.py:122 | For any table, the number of selected rows is the number of times the label occurs in the label column. |
| Stats.ResultCounts | script.py:110-111 | `Wins` is the number of times "1-0" or "0-1" occurs in the result column. `Draws` is the number of times "1/2-1/2" occurs there. |
| Stats.WinsAndDrawsWithinTotal | script.py:110-111 | No result is both decisive and a draw, so wins plus draws never exceed the number of rows. |
| Stats.Rate | script.py:114-115 | An empty total gives 0. Otherwise the rate is non-negative and, multiplied by the total, gives 100 times the count. |
| Stats.MeanBlunders | script.py:112 | The mean exists exactly when there are rows (NaN otherwise). It is non-negative, and times the number of rows it gives the blunder total. |
| Stats.CalculateStats | script.py:108-117 | An empty subset gives rates of 0 and no mean. Otherwise the win rate times the number of rows is 100 times the wins, and likewise for the draw rate and the draws. The mean is that of the blunder column. |
| Stats.StatsBounded | script.py:109-115 | Both rates are non-negative and add up to at most 100. |
| Stats.Report | script.py:121-123 | One summary per bucket, in the order bullet, blitz, classical. Each is `calculate_stats` of the rows with that bucket's label alone. |
| Stats.RatesWithinHundred | script.py:114-115 | Two percentages of one total add up to at most 100 when their counts add up to at most the total. |
| Pipeline.Flatten | script.py:86-90 | The flattened games are the bullet list, then the blitz list, then the classical list. The labels are the same three blocks of repeated names, so both lists have one length. |
| Pipeline.Zip | script.py:98-102 | The table built from three columns of one length. Its label, result and blunder columns are exactly the three given columns. |
| Pipeline.ZipColumns | script.py:98-102 | Any table is rebuilt from its own three columns, so building the table and reading its columns back are inverse. |
| Pipeline.AnalyzeAll | script.py:93-95 | The blunder counts come back one per game, in the order of the games. |
| Pipeline.AdmittedCount | script.py:98-102 | The results, the flattened games and the labels always have one length, so building the table never fails on uneven columns. |
| Pipeline.GroupedLabelsMatch | script.py:86-90 | Each label names the bucket its game was classified into. |
| Pipeline.AnalyzeCorpus | script.py:83-123 | Parse, flatten, analyse and tabulate, as the script does: the rows are `RowsAsWritten`, one per accepted game, and the report summarises them per label. |
| Pipeline.BucketMembers | script.py:58-59 | Every game in a category's list has that category. |
| Pipeline.SubsetConcat | script.py:122 | Selecting a label commutes with concatenating tables. |
| Pipeline.SubsetAll | script.py:122 | Selecting a label from rows that all carry it keeps every row. |
| Pipeline.SubsetNone | script.py:122 | Selecting a label from rows none of which carries it keeps none. |
| Pipeline.SubsetOfBlocks | script.py:122 | Selecting a label from a bullet, a blitz and a classical block laid end to end gives back exactly the block with that label. |
| Pipeline.GroupSubset | script.py:98-102 | Whatever results column is placed beside the grouped games, the rows labelled `c` are the block of bucket `c`. They carry its labels, its blunder counts and the slice of the results column at that block's position. |
| Pipeline.AsWrittenSubset | script.py:98-102 | As written, the rows selected for a bucket carry that bucket's blunder counts. Their results are the arrival-order results at the block's position, which need not be the bucket's own (see `Pipeline.MispairedResults`). |
| Pipeline.ResultColumnPermutes | script.py:61 | The results column is a permutation of the results of the grouped games: no result is lost or duplicated. |
| Pipeline.ResultsPartition | script.py:61 | The results of any games are the results of the three categories' games taken together. |
| Pipeline.PairedSubset | script.py:98-102 | In the corrected table, the rows selected for a bucket are that bucket's own games with their own results and counts. |
| Pipeline.PairedReport | script.py:121-123 | In the corrected table, each bucket's summary is computed from that bucket's games alone. |
| Pipeline.AnalyzeCorpusPaired | script.py:98-102 | The corrected pipeline builds the paired table. |
| Pipeline.DrawThenWinAdmitted | script.py:58-61 | With cap 1, a blitz draw followed by a bullet win are both accepted. |
| Pipeline.DrawThenWinGrouped | script.py:86-90 | The bullet game of that source is grouped first. |
| Pipeline.MispairedResults | script.py:98-102 | In that example, the script's first row is labelled bullet but carries the blitz game's draw, while the bullet game won. |
| Pipeline.DrawThenWinAsWritten | script.py:98-102 | The script's table for that example is a bullet row with the draw, then a blitz row with the win. |
| Pipeline.DrawThenWinPaired | script.py:98-102 | The corrected table for that example is a bullet row with the win, then a blitz row with the draw. |
| Pipeline.MispairedWinRate | script.py:108-123 | In that example the script reports a bullet win rate of 0, while the corrected table reports 100. |
| Pipeline.SingleRowWinRate | script.py:110-114 | A one-row subset has a win rate of 100 when its result is "1-0" or "0-1", and 0 otherwise. |

## Left out

- The engine process is not modelled: starting it, analysing a position at depth 10 and quitting it (script.py:10, 24, 34). A game carries the scores the engine would report after each half-move. The model says nothing about releasing the engine: an exception between start and quit is not modelled, and on that path the script never quits.
- PGN parsing, header lookup and board replay are not modelled (script.py:12, 18, 44). The source is a finite sequence of records, each with two optional headers and the score list. An absent `TimeControl` defaults to "classical" and an absent `Result` to "*".
- The parallel map (script.py:93-95) is modelled one game at a time. Only its result is kept, which is the counts in input order.
- pandas and numpy are not modelled. A table is a sequence of rows, and rates and means are exact rationals, not floats. The mean of an empty column, NaN in the script, is `None`.
- The Pearson correlation between time control and blunders (script.py:126-130) is floating-point library code and is not modelled.
- The relabelling at script.py:105 maps each label to itself, so the model selects rows by the label directly.
- All printing is not modelled: progress messages, the per-bucket report line and the final counts. Rounding to two decimals is part of that printing.
- The file opening at script.py:80 is not modelled, and neither is the engine path. The cap is a parameter. The script's default is 110000 (script.py:38), and `main` passes 50000 (script.py:83).
- Pipeline.Flatten: requires that all three buckets are keys of the map. It walks them in report order, not in the dictionary's insertion order. `parse_pgn_games` always builds the dictionary with exactly these keys in this order (script.py:39).
- Categorizer.ParsePgnGames: returns the number of records read as a ghost value. The records beyond that point are never inspected by the loop, but reading is not modelled as an effect.

## Findings

| source | as written | input that shows it | evidently intended | confidence | as-written member | corrected member |
|---|---|---|---|---|---|---|
| script.py:98-102 | The `result` column is the results list, which is in arrival order (script.py:61). The `time_control` and `blunders` columns follow the games regrouped by bucket (script.py:86-90). Per-bucket win and draw rates can therefore count another bucket's results. | cap 1: a blitz game "300+0" drawn "1/2-1/2", then a bullet game "60+0" won "1-0". The bullet row gets the draw, so bullet shows 0% wins. | Each row carries its own game's result, so each bucket's rates come from that bucket's games. | not executed | Pipeline.MispairedResults | Pipeline.PairedSubset |
