# Ball: a Dafny model of the feature, backtest and forecast logic

Ball predicts the point spread of NBA and WNBA games and turns each prediction
into a bet recommendation. It is a set of pandas scripts. This project models
their deterministic core in Dafny 4.11 and proves what those scripts promise
about it:

- **Player-log fetch** (`add_player_stats.py`). A resumable walk over every
  player id. Ids already processed are skipped, every fetched log is appended
  exactly once, the processed set grows whatever the fetch does, and a
  checkpoint of (frame, set) is dumped every 25th list position on the success
  path and removed at the end. The fetcher is the class
  `PlayerFetch.PlayerLogFetcher`. Its fields are the two checkpoint files, the
  frame and the processed set. Its method `GetAllPlayerLogsRobust` is proved
  against the specification function `PlayerFetch.Run`, and the lemmas about
  `Run` state exactly-once fetching, checkpoint soundness and completeness, and
  that resuming from any checkpoint yields the same result as an uninterrupted
  run.
- **Per-game player aggregates** (`add_player_stats.py`). Each player's shifted
  10-game rolling means. For each game, the latest row of each player dated
  strictly before it, summed per side.
- **Walk-forward backtests** (`backtest_final_strategy.py`,
  `backtest_wnba_strategy.py`). The name-to-abbreviation join with the odds, the
  training set of games dated before the first test game, and the `_diff`
  feature columns. Then the tiered bet selection (|edge| above 8, 5 or 3 points
  stakes 3, 2 or 1 units, one bet per game at its highest tier), settlement
  (won iff edge and actual-minus-spread have the same sign) and the totals. The
  WNBA run also refuses fewer than 20 training games.
- **Daily forecast** (`forecast_today.py`). The latest exponentially weighted
  stats of a team (`ewm(alpha=0.1, adjust=False)`), the skip rules (unknown id,
  no history, a "skip" or unparseable spread), the home-minus-away model input,
  the recommendation rule with the away line's sign flip, and the append-only
  prediction log.
- **Feature engineering** (`feature_engineering.py`, `feature_engineering_wnba.py`,
  `feature_engineering_nba_players_v2.py`, `feature_engineering_v2.py`).
  Per-group shifted rolling means and shifted exponentially weighted means,
  proved free of look-ahead. The `dropna` that removes each group's undefined
  prefix. The exact home/away partition by the '@' of MATCHUP and the pairing on
  the game id. Antisymmetric difference and advantage features. The
  star/starters/bench slices of a descending sort. Dean Oliver's Four Factors
  with their bounds.

Pandas operations are modelled once, in `seqs.dfy` and `rolling.dfy`, and
reused by the script modules:

- A sort is a stable insertion sort (`Seqs.SortBy`).
- A boolean mask is `Seqs.Filter`.
- `shift(1).rolling(w).mean()` is `Rolling.ShiftedRolling`.
- `ewm(alpha, adjust=False).mean()` is `Rolling.EwmMean`. It follows pandas'
  own loop, including the weight kept across leading NaN. It is proved equal to
  the textbook recurrence `Rolling.Ewma` on a series without gaps.
- A `groupby(...).transform(...)` is `Rolling.GroupShiftedRolling` or
  `Rolling.GroupShiftedEwma`.

Every value pandas would hold as NaN is an `Option` that is `None`. Every step
that can raise returns an `Outcome`, which is `Raised(reason)` or
`Done(value)`. Dates are integers and stats are reals. A model's prediction is
an uninterpreted function given as a parameter.

## Model

| member | source | states |
|---|---|---|
| PlayerFetch.Start | add_player_stats.py:28-36 | the run resumes from the checkpoint only when both files exist, and otherwise starts from an empty frame and an empty set |
| PlayerFetch.StepOutcome | add_player_stats.py:45-69 | for an id not yet processed, one iteration appends exactly the id's rows (nothing for an empty frame or a raise), adds the id to the set and fetches it once |
| PlayerFetch.SkipChangesNothing | add_player_stats.py:42-43 | an id already processed is skipped and leaves frame, set, fetch log and checkpoints unchanged |
| PlayerFetch.RunProcessed | add_player_stats.py:40-69 | after the loop every id of the list is in the processed set, whether its fetch succeeded or raised |
| PlayerFetch.RunAttempts | add_player_stats.py:40-69 | exactly-once fetching: the ids fetched are the ids of the list not processed at the start, each once, in list order |
| PlayerFetch.RunRecords | add_player_stats.py:52-53 | the frame after the loop is the starting frame followed by the rows of every fetched id, in fetch order |
| PlayerFetch.RecordsAfterStep | add_player_stats.py:40-56 | one more list position extends the frame by exactly the rows of its id when the id is new |
| PlayerFetch.SnapshotsSound | add_player_stats.py:59-64 | every checkpoint is dumped at a position with (i + 1) % 25 == 0 whose id was new and fetched without raising, in increasing position order, and holds the frame and set of that moment |
| PlayerFetch.SnapshotsComplete | add_player_stats.py:59-64 | every position where a checkpoint is due gets one |
| PlayerFetch.StepKeepsSnapshots | add_player_stats.py:59-64 | an iteration only appends checkpoints; earlier ones are kept |
| PlayerFetch.RunSplit | add_player_stats.py:40 | running the positions in two stretches is running them at once |
| PlayerFetch.RunSkipsDone | add_player_stats.py:42-43 | positions whose ids are all processed change nothing |
| PlayerFetch.RunDataOnly | add_player_stats.py:40-69 | the frame and set after a stretch depend only on the frame and set before it |
| PlayerFetch.ResumeFromPosition | add_player_stats.py:28-43 | restarting from the frame and set held after any position gives the same frame and set as the uninterrupted run |
| PlayerFetch.ResumeAfterInterruption | add_player_stats.py:28-69 | a run killed between two positions and restarted on the checkpoint files it left ends with the same frame and set as a run that was never interrupted, provided the service answers each id the same way both times |
| PlayerFetch.PlayerLogFetcher.constructor | add_player_stats.py:15-16 | a fetcher over the given checkpoint files, with an empty frame and set |
| PlayerFetch.PlayerLogFetcher.LoadCheckpoint | add_player_stats.py:28-36 | loads frame and set from the checkpoint when both files exist, otherwise starts fresh; the files are untouched |
| PlayerFetch.PlayerLogFetcher.SaveCheckpoint | add_player_stats.py:63-64 | both files hold the current frame and set; the checkpoint log gains that snapshot; nothing else changes |
| PlayerFetch.PlayerLogFetcher.GetAllPlayerLogsRobust | add_player_stats.py:19-76 | the fetcher's state after the loop is `Run` from the loaded start over the whole list; the returned logs are the frame; both checkpoint files are gone |
| PlayerFetch.FetchAllResult | add_player_stats.py:19-76 | what the call returns: every listed id ends up processed, and the frame is the starting frame followed by the rows of every id not processed at the start, each fetched once in list order |
| PlayerAggregate.RollPlayerStats | add_player_stats.py:88-95 | the frame in date order with the nine rolling columns, one row per input row |
| PlayerAggregate.RollPlayerStatsAt | add_player_stats.py:88-95 | a row's rolling value is the mean of its player's 10 previous values, missing for the player's first 10 games; the current game never contributes |
| PlayerAggregate.AddRollingColumns | add_player_stats.py:92-95 | the loop over the stats yields each stat's rolling column |
| PlayerAggregate.KeepLastExact | add_player_stats.py:104 | drop_duplicates keep='last' keeps exactly the rows that are the last of their player and date, and no two kept rows share player and date |
| PlayerAggregate.Relevant | add_player_stats.py:111 | a row is used for a game exactly when it is in the frame and dated strictly before the game |
| PlayerAggregate.LatestOf | add_player_stats.py:112 | the groupby-last row of a present player carries that player's id |
| PlayerAggregate.LatestRows | add_player_stats.py:112 | groupby('Player_ID').last() has exactly one row per player present |
| PlayerAggregate.LatestOfSpec | add_player_stats.py:112 | each column of a player's groupby-last row is the last non-missing value of that column among the player's rows, and MATCHUP is the player's last row's |
| PlayerAggregate.SideSums | add_player_stats.py:117-118 | one sum per rolling column: the sum of the players' present values of that column, missing values skipped |
| PlayerAggregate.SideSumsAdditive | add_player_stats.py:117-118 | the side sums are 0 over no player, a single player's present values over one, and add up over two groups of players |
| PlayerAggregate.NoLaterRows | add_player_stats.py:111-118 | rows dated on or after the game, wherever they are, leave the game's aggregate unchanged |
| PlayerAggregate.AggregateGames | add_player_stats.py:102-122 | as written: one aggregate per processed game, in order, over the frame with same-day duplicates dropped, a player counting for every side whose abbreviation occurs in their last MATCHUP |
| PlayerAggregate.AddPlayerStats | add_player_stats.py:81-122 | as written: no result exactly when no player row was fetched; otherwise each game with the as-written aggregate over the rolled, deduplicated frame |
| PlayerAggregate.OpponentCountedTwice | add_player_stats.py:114-115 | as written, an away player whose last game was against the home team is summed on both sides |
| PlayerAggregate.OwnTeamOfMatchup | add_player_stats.py:114-115 | the own team read from a MATCHUP is the team the service wrote first |
| PlayerAggregate.OwnTeamSidesDisjoint | add_player_stats.py:114-115 | with membership by own team, no player is summed on both sides of a game between two teams, and a player of the home team is summed on the home side |
| PlayerAggregate.OwnSideWithinPlaysIn | add_player_stats.py:114-115 | the correction only removes players: a player counted for a side by own team is counted for it as written too |
| Betting.Abs | backtest_final_strategy.py:92 | the absolute value of the edge |
| Betting.TierUnits | backtest_final_strategy.py:10-14 | the units of the highest tier whose threshold the edge strictly exceeds: at most 3, and 0 exactly when the absolute edge is at most 3 |
| Betting.ThresholdsDescending | backtest_final_strategy.py:10-14 | the tiers are visited from the highest threshold down, with more units for a higher threshold |
| Betting.TierBets | backtest_final_strategy.py:92-97 | a tier bets exactly the test games whose absolute edge strictly exceeds its threshold, at its units |
| Betting.FirstPerGameKeepsFirst | backtest_final_strategy.py:99 | every bet kept by drop_duplicates keep='first' is the first bet of its game |
| Betting.FirstPerGameDistinct | backtest_final_strategy.py:99 | the kept bets are of distinct games |
| Betting.FirstPerGameCovers | backtest_final_strategy.py:99 | every game with a candidate bet keeps one |
| Betting.SelectBets | backtest_final_strategy.py:91-99 | the loop over the tiers, accumulating and deduplicating, yields `Selected` |
| Betting.OneBetPerGame | backtest_final_strategy.py:91-99 | each game is bet at most once |
| Betting.BetsAtHighestTier | backtest_final_strategy.py:91-99 | every bet is on a test game, stakes the units of its own edge's tier, and no row of its game has a higher tier |
| Betting.EdgeGamesAreBet | backtest_final_strategy.py:91-99 | every test game whose absolute edge exceeds 3 is bet |
| Betting.WonIff | backtest_final_strategy.py:105 | a home-side bet wins when the home margin beats the spread and an away-side bet when it falls short; a push loses |
| Betting.Wins | backtest_final_strategy.py:108 | the number of won bets is at most the number of bets |
| Betting.Losses | backtest_final_strategy.py:108 | the number of lost bets is at most the number of bets |
| Betting.TotalsAddUp | backtest_final_strategy.py:106-113 | wins plus losses is the bet count; profit is twice the units won minus the units risked; profit lies within plus or minus the units risked |
| Betting.RiskedAtLeastBets | backtest_final_strategy.py:106-113 | when every bet stakes a unit or more, at least one unit is risked per bet |
| Betting.Results | backtest_final_strategy.py:104-113 | the totals are the number of bets, won bets and lost bets, the units risked and the profit; the win rate is wins over bets and the ROI profit over units risked, each 0 when its denominator is 0, with the win rate in [0, 1] and the ROI in [-1, 1] |
| Betting.ReportBets | backtest_final_strategy.py:104 | no report exactly when no game was bet |
| Backtest.MatchesOf | backtest_final_strategy.py:65 | the odds rows of one game are exactly those with its date and its mapped home team |
| Backtest.Merge | backtest_final_strategy.py:65 | the inner join holds exactly the (game, odds) pairs whose date and home abbreviation agree |
| Backtest.UnmappedNeverJoins | backtest_wnba_strategy.py:47-57 | an odds row whose team is missing from the map joins no game |
| Backtest.MergeInDateOrder | backtest_final_strategy.py:24 | the join of date-ordered games is in date order |
| Backtest.MinDate | backtest_final_strategy.py:71 | the earliest date of the test set is one of its dates and no later than any |
| Backtest.TrainSet | backtest_final_strategy.py:74 | the training games are exactly the games dated strictly before the first test date |
| Backtest.FeatureColumns | backtest_final_strategy.py:75 | the feature columns are exactly the columns whose name ends in "_diff" |
| Backtest.TestGames | backtest_final_strategy.py:87-88 | each joined row becomes a test game whose edge is the model's prediction minus the spread |
| Backtest.RunOutcome | backtest_final_strategy.py:65-133 | a run raises exactly when no game has a line (with the league's no-overlap message), when there are fewer training games than required, when there is no training game at all, or when no column ends in "_diff" (the two errors RandomForestRegressor.fit raises); otherwise it reports the bets |
| Backtest.WnbaTrainingGuard | backtest_wnba_strategy.py:66-71 | the WNBA run raises whenever fewer than 20 games come before the first test date |
| Backtest.NbaTrainingUnguarded | backtest_final_strategy.py:65-133 | the NBA run has no minimum training size: once some game has a line and some column ends in "_diff", it completes exactly when at least one game comes before the first test date, and otherwise ends with fit's no-samples error |
| Backtest.WalkForward | backtest_final_strategy.py:71-74 | no training game is dated on or after any test game |
| Backtest.TestSetInDateOrder | backtest_final_strategy.py:24 | the test set is in date order, so its first game is on the first test date |
| Forecast.TeamRows | forecast_today.py:15 | the team's rows are exactly the history rows with its abbreviation, in date order |
| Forecast.LatestEwma | forecast_today.py:8-24 | no value exactly when the team has no historical row |
| Forecast.LastSmoothed | forecast_today.py:24 | the returned row holds, per stat, the last entry of its smoothed column |
| Forecast.LastEwma | forecast_today.py:20-21 | the loop computes the last entry of the textbook recurrence |
| Forecast.CalculateLatestEwma | forecast_today.py:8-24 | the method computes `LatestEwma` |
| Forecast.LastRowOfColumns | forecast_today.py:18-24 | the loop over the stats yields the last row of the smoothed columns |
| Forecast.LatestEwmaBounds | forecast_today.py:20-24 | each smoothed stat lies within the range of the team's own values of that stat |
| Forecast.LatestEwmaRecurrence | forecast_today.py:20-24 | with one game on record the smoothed stat is that game's value; with more it is (1 - alpha) times the previous smoothed value plus alpha times the last value |
| Forecast.OtherTeamsIgnored | forecast_today.py:10 | rows of other teams do not change a team's smoothed stats |
| Forecast.ToDict | forecast_today.py:54 | the dictionary knows exactly the keys of the pairs |
| Forecast.TeamIdMapExact | forecast_today.py:54 | the team-id map knows exactly the ids of the history and maps each to an abbreviation that id has |
| Forecast.Recommend | forecast_today.py:101-104 | no bet exactly when the edge is within plus or minus 3; home at the spread above 3; away at the negated spread, with a '+' exactly when that is positive, below -3 |
| Forecast.RecommendSymmetric | forecast_today.py:101-104 | seen from the other side (teams swapped, prediction and spread negated) the rule bets on the same team at the same quoted line, or makes no bet on both sides |
| Forecast.DiffAntisymmetric | forecast_today.py:86 | swapping the teams negates the input, and a team against itself gives zeros |
| Forecast.Teams | forecast_today.py:69-83 | a game goes on exactly when both ids are known and both teams have history, with their abbreviations and smoothed stats |
| Forecast.Answer | forecast_today.py:91-114 | the typed spread skips the game exactly when it reads "skip" in any case or does not parse; otherwise the record holds the prediction, the spread, the edge and the recommendation |
| Forecast.Handle | forecast_today.py:66-114 | a game with unknown or historyless teams reads no answer and records nothing; otherwise it reads one answer, and raises when none is left |
| Forecast.Loop | forecast_today.py:66-114 | at most one record per game, and no more answers read than games or answers given |
| Forecast.Next | forecast_today.py:66-114 | one iteration adds at most one record and reads at most one answer |
| Forecast.LoopRecords | forecast_today.py:66-114 | every record's edge is its prediction minus its spread and its recommendation follows the rule, and its two teams are the known abbreviations of a scheduled game's ids |
| Forecast.SkippedGameIsSilent | forecast_today.py:69-83 | a game whose teams are unknown or without history changes neither the records nor the answers read |
| Forecast.RaisedPrefix | forecast_today.py:94 | once the loop raises, the games after it change nothing |
| Forecast.ProcessGames | forecast_today.py:66-114 | the loop raises exactly when `Loop` does and otherwise returns its records |
| Forecast.SaveLog | forecast_today.py:117-127 | nothing is written when no record was made; otherwise the log is the existing rows followed by today's records, or today's records alone |
| Forecast.SaveLogTwice | forecast_today.py:117-127 | saving two days appends both in order |
| Forecast.Strip | forecast_today.py:30 | str.strip(): the result is a slice of the text with only whitespace before and after it; it is empty exactly when the text is all whitespace, and otherwise starts and ends with a non-space |
| Forecast.ChooseLeague | forecast_today.py:30-42 | a league is chosen exactly when the stripped, upper-cased answer is NBA or WNBA |
| Forecast.Forecast | forecast_today.py:60-127 | an empty schedule leaves the log unchanged; the run raises exactly when the loop does; a completed run saves the loop's records after the existing log |
| GameFeatures.SortedGames | feature_engineering.py:20 | the rows in date order, a permutation of the input |
| GameFeatures.SmoothColumns | feature_engineering.py:31-34 | one smoothed column per stat, one value per row |
| GameFeatures.AddSmoothedColumns | feature_engineering.py:31-34 | the loop over the stats yields each stat's smoothed column |
| GameFeatures.SmoothedFrame | feature_engineering.py:16-34 | the sorted frame with one smoothed value per stat in each row |
| GameFeatures.Prior | feature_engineering.py:32-33 | a row's team has exactly as many earlier values as earlier games |
| GameFeatures.WindowAt | feature_engineering.py:20-34 | no look-ahead: a row's rolling stat is the mean of its team's 10 previous values, missing for the team's first 10 games |
| GameFeatures.EwmAt | feature_engineering_wnba.py:18-32 | no look-ahead: the smoothed stat is missing at a team's first game, equals the previous value at its second, and otherwise is 0.9 times the previous smoothed value plus 0.1 times the previous game's value |
| GameFeatures.DropNa | feature_engineering.py:38 | the rows whose smoothed values are all present, and only those |
| GameFeatures.WindowKept | feature_engineering.py:38 | a row survives dropna exactly when its team has at least 10 earlier games |
| GameFeatures.EwmKept | feature_engineering_wnba.py:35 | a row survives dropna exactly when it is not its team's first game |
| GameFeatures.HomeAwayPartition | feature_engineering.py:41-42 | the '@' test splits the rows: away exactly when MATCHUP has '@', home otherwise, none lost or repeated |
| GameFeatures.PairOnGameId | feature_engineering.py:49-51 | the merge holds exactly the (home, away) pairs with equal game ids |
| GameFeatures.PairedExact | feature_engineering_wnba.py:38-46 | each output pair joins a home row and an away row of the same game, and every such pair is output |
| GameFeatures.CleanWindowAt | feature_engineering.py:32-38 | an NBA row left by dropna is a row of the date-sorted frame, and each of its stats is the mean of its team's 10 previous games |
| GameFeatures.NbaRowsFromPairs | feature_engineering.py:38-72 | every NBA output row comes from a home row and an away row of one game, both with every rolling value defined |
| GameFeatures.NbaRowsLookBack | feature_engineering.py:16-72 | no look-ahead end to end: each NBA output row joins the home row (no '@') and the away row ('@') of its game, with its home and away teams, and each side's rolling stat is the mean of that team's 10 previous games |
| GameFeatures.DiffsAntisymmetric | feature_engineering_wnba.py:49-50 | swapping the sides negates every difference |
| GameFeatures.CleanEwmAt | feature_engineering_wnba.py:29-35 | a WNBA row left by dropna is a row of the date-sorted frame, and each of its stats is the exponentially weighted mean of its team's earlier games |
| GameFeatures.WnbaRowsLookBack | feature_engineering_wnba.py:14-58 | no look-ahead end to end: each WNBA output row joins the home row and the away row of its game, and each stat_diff is the home team's weighted mean over its earlier games minus the away team's |
| PlayerFeatures.Rolled | feature_engineering_nba_players_v2.py:24-28 | the player log in date order with its six rolling columns, one row per input row |
| PlayerFeatures.RolledAt | feature_engineering_nba_players_v2.py:24-28 | a row's rolling stat is the mean of its player's 10 previous values, missing for the first 10 |
| PlayerFeatures.AddRollColumns | feature_engineering_nba_players_v2.py:25-28 | the loop over the stats yields each stat's rolling column |
| PlayerFeatures.Lines | feature_engineering_nba_players_v2.py:29 | the lines that survive dropna are exactly the rows with every rolling value present |
| PlayerFeatures.KeptIff | feature_engineering_nba_players_v2.py:29 | a row survives exactly when its player has at least 10 earlier games |
| PlayerFeatures.LinesInDateOrder | feature_engineering_nba_players_v2.py:24-29 | the surviving lines are in date order |
| PlayerFeatures.Relevant | feature_engineering_nba_players_v2.py:46 | a line is used for a game exactly when it is dated strictly before it |
| PlayerFeatures.LatestOf | feature_engineering_nba_players_v2.py:47 | the groupby-last line of a present player is one of that player's relevant lines |
| PlayerFeatures.Latest | feature_engineering_nba_players_v2.py:47 | exactly one line per player present |
| PlayerFeatures.LatestIsMostRecent | feature_engineering_nba_players_v2.py:46-47 | the line used for a player is dated before the game and no earlier than any other of the player's lines before the game |
| PlayerFeatures.Ranked | feature_engineering_nba_players_v2.py:49-54 | a side's players are a permutation of the latest lines of its team, in descending rolling points |
| PlayerFeatures.RankedSide | feature_engineering_nba_players_v2.py:49-54 | the ranked side holds exactly the latest lines whose TEAM_ABBREVIATION equals the side's, best scorer first |
| PlayerFeatures.StarIsLeader | feature_engineering_nba_players_v2.py:60 | the star value is the leader's, the leader scores most, and an empty side gives 0 |
| PlayerFeatures.StartersAndBench | feature_engineering_nba_players_v2.py:62-64 | the best five and players six to ten together are the best ten, and a side of at most five has no bench |
| PlayerFeatures.GameFeaturesOfAt | feature_engineering_nba_players_v2.py:46-64 | each of the eighteen features is the home side's top-1, top-5 or bench sum minus the away side's, both sides ranked over the players' latest lines before the game |
| PlayerFeatures.FeaturesAntisymmetric | feature_engineering_nba_players_v2.py:58-64 | swapping the sides negates every feature |
| PlayerFeatures.LoopKeys | feature_engineering_nba_players_v2.py:36 | drop_duplicates: each distinct (GAME_ID, GAME_DATE, MATCHUP) exactly once |
| PlayerFeatures.ParseMatchup | feature_engineering_nba_players_v2.py:41-42 | both abbreviations exist exactly when MATCHUP contains " vs. "; home is the text before its first occurrence |
| PlayerFeatures.ParseMatchupAway | feature_engineering_nba_players_v2.py:42 | away is the text after the first " vs. ", up to the next one when there is another |
| PlayerFeatures.AllFeatures | feature_engineering_nba_players_v2.py:38-66 | the loop raises IndexError exactly when some key's MATCHUP lacks " vs. "; otherwise one feature row per key, in order |
| PlayerFeatures.BuildGameFeatures | feature_engineering_nba_players_v2.py:38-66 | the loop computes `AllFeatures` |
| PlayerFeatures.HomeRows | feature_engineering_nba_players_v2.py:77 | the rows without '@' in MATCHUP, and only those |
| PlayerFeatures.MergePointDiff | feature_engineering_nba_players_v2.py:79 | the inner join on GAME_ID holds exactly each feature row with the PLUS_MINUS of a home row of its game |
| PlayerFeatures.Pipeline | feature_engineering_nba_players_v2.py:38-79 | steps 3 to 5 raise exactly when the loop does or there is no key; each output row carries a computed feature row and its game's home point differential |
| PlayerFeatures.BuildPlayerFeatures | feature_engineering_nba_players_v2.py:12-81 | the script over the computed frames, with the loop over the home-side keys |
| PlayerFeatures.NoVsWithoutV | feature_engineering_nba_players_v2.py:41-42 | a MATCHUP without the letter 'v' has no " vs. " |
| PlayerFeatures.AwayRowAborts | feature_engineering_nba_players_v2.py:36-42 | as written, one games row without " vs. " stops the whole run with IndexError |
| PlayerFeatures.AsWrittenAbortsOnBothSides | feature_engineering_nba_players_v2.py:36-42 | as written, a games file holding both rows of one game produces nothing |
| PlayerFeatures.HomeKeys | feature_engineering_nba_players_v2.py:36 | the corrected loop keys: the distinct keys whose MATCHUP reads "home vs. away" |
| PlayerFeatures.CorrectedNeverAborts | feature_engineering_nba_players_v2.py:36-79 | corrected, the loop never raises, and the run fails only when the file has no home row |
| PlayerFeatures.CorrectedRowsAreHomeGames | feature_engineering_nba_players_v2.py:36-79 | corrected, every output row holds the features of a home row's game and that game's home point differential |
| FourFactors.PairsFor | feature_engineering_v2.py:26 | the rows of the same GAME_ID and date as a row |
| FourFactors.SelfMerge | feature_engineering_v2.py:26 | the self-merge holds exactly the pairs of rows of one game and date |
| FourFactors.Opponents | feature_engineering_v2.py:26-27 | each row is paired with exactly the rows of its game and date of another TEAM_ID |
| FourFactors.OpponentsOfOneGame | feature_engineering_v2.py:26-27 | a game with its two rows gives each team exactly its opponent |
| FourFactors.Ratio | feature_engineering_v2.py:30-33 | a quotient is defined exactly when its denominator is non-zero |
| FourFactors.FactorsOf | feature_engineering_v2.py:30-36 | the factor row keeps the team, date and game of its box score |
| FourFactors.FactorBounds | feature_engineering_v2.py:30-33 | on consistent box scores each factor is defined once its denominator is positive; eFG% lies in [0, 1.5], TOV% and ORB% in [0, 1], and the free-throw rate is not negative |
| FourFactors.RollFactors | feature_engineering_v2.py:43-46 | one rolling column per factor, one value per row |
| FourFactors.AddRollingFactors | feature_engineering_v2.py:43-46 | the loop over the factors yields each factor's rolling column |
| FourFactors.Rolled | feature_engineering_v2.py:40-46 | the factor frame in date order with its rolling columns |
| FourFactors.RolledAt | feature_engineering_v2.py:40-46 | a row's rolling factor is the mean of its team's 10 previous values, missing unless all 10 exist and are defined |
| FourFactors.DropNa | feature_engineering_v2.py:52 | the rows with no missing value, and only those |
| FourFactors.HomeAwayPartition | feature_engineering_v2.py:55-56 | the '@' test splits the rows exactly |
| FourFactors.Advantage | feature_engineering_v2.py:65-66 | one advantage per factor: the home team's rolling factor minus the away team's |
| FourFactors.AdvantageAntisymmetric | feature_engineering_v2.py:65-66 | swapping the sides negates every advantage |
| FourFactors.PairGames | feature_engineering_v2.py:61-66 | the merge holds exactly the (home, away) pairs of one game, with their advantages |
| FourFactors.MergePlayers | feature_engineering_v2.py:68-82 | without a player file the games pass through unchanged; with one, each game joins the player rows of its GAME_ID_home |
| FourFactors.Games | feature_engineering_v2.py:52-66 | final_df before the player merge: the home and away rows left after dropna, paired on the game id |
| FourFactors.MasterFeatures | feature_engineering_v2.py:36-82 | the run raises KeyError exactly when MATCHUP is not among the kept columns |
| FourFactors.AsWrittenAlwaysRaises | feature_engineering_v2.py:36-55 | as written, the factor frame drops MATCHUP, so every run ends with a KeyError |
| FourFactors.CorrectedGames | feature_engineering_v2.py:36-82 | with MATCHUP kept, every run completes and each output row joins a home and an away row of one game with advantage = home minus away |
| Rolling.Shift | feature_engineering.py:33 | shift(1): one value per row, missing at the first row, and at every later row the value of the row before |
| Rolling.ShiftedRollingAt | feature_engineering.py:33 | shift(1).rolling(w).mean() at row k is missing for k < w and otherwise the mean of the w values before k |
| Rolling.MeanOfLast | feature_engineering.py:33 | the window mean is defined exactly when there are at least w earlier values, and is then the mean of the last w of them |
| Rolling.EwmaRecurrence | forecast_today.py:20-21 | the textbook recurrence: the first value is the first observation, each later one mixes the previous value with the observation |
| Rolling.EwmaBounds | forecast_today.py:20-21 | every smoothed value lies between the smallest and the largest observation |
| Rolling.EwmStepSettled | feature_engineering_wnba.py:31 | once pandas' old weight is back to 1, a row is one textbook step |
| Rolling.EwmStatesAfterLeadingNaN | feature_engineering_wnba.py:31 | after leading NaN, pandas' ewm loop starts at the first observation and then follows the recurrence |
| Rolling.EwmMeanGapFree | feature_engineering_wnba.py:31 | ewm(adjust=False) over a series without gaps is the textbook recurrence |
| Rolling.ShiftedEwmaAt | feature_engineering_wnba.py:31 | shift(1).ewm(adjust=False).mean() at row k is missing at row 0 and otherwise the recurrence over the rows before k |
| Rolling.GroupValuesSize | feature_engineering.py:32 | a group's series has one value per row of the group |
| Rolling.GroupValuesPrefix | feature_engineering.py:32 | the group over fewer rows is a prefix of the group |
| Rolling.RowInGroup | feature_engineering.py:32 | row k sits in its group right after the group's earlier rows |
| Rolling.GroupShiftedRollingAt | feature_engineering.py:32-33 | the grouped rolling value of row k is the mean of the last w earlier values of its group, missing while fewer exist |
| Rolling.GroupShiftedEwmaAt | feature_engineering_wnba.py:29-31 | the grouped smoothed value of row k is missing at its group's first row and otherwise the recurrence over its group's earlier values |
| Rolling.GroupValuesLocal | feature_engineering.py:32 | the group's series over the first n rows reads only those rows |
| Rolling.GroupShiftedRollingNoLookAhead | feature_engineering.py:32-33 | two frames that agree on the rows up to k give row k the same rolling value |
| Rolling.GroupShiftedEwmaNoLookAhead | feature_engineering_wnba.py:29-31 | two frames that agree on the rows up to k give row k the same smoothed value |
| Rolling.LastWindowMean | feature_engineering_v2.py:45 | the mean of the last w values, defined exactly when there are w of them and all are defined |
| Rolling.GroupShiftedRollingGapsAt | feature_engineering_v2.py:44-45 | over a column with NaN, row k's rolling value is `LastWindowMean` of its group's earlier values |
| Seqs.SplitJoin | feature_engineering_nba_players_v2.py:41-42 | splitting MATCHUP on a separator and joining again gives it back |
| Seqs.SplitPiecesFree | feature_engineering_nba_players_v2.py:41-42 | no piece of a split contains the separator |
| Seqs.SortBy | feature_engineering.py:20 | sort_values: the result is in ascending order and a permutation of the input |
| Seqs.FilterPartition | feature_engineering.py:41-42 | a mask and its complement split the rows, none lost or repeated |
| Seqs.FirstSeenExact | add_player_stats.py:40-43 | the ids fetched are distinct and are exactly the ids of the list not processed at the start |
| Seqs.LastPresentAt | add_player_stats.py:112 | groupby last() returns a value after which every value of the column is missing |

## Left out

- I/O is not modelled: CSV and joblib reads and writes, `os.path.exists` and `os.remove`. Checkpoint files are `Option` fields of the fetcher. A read file is a parameter.
- `players.get_players()`, `time.sleep(0.6)` and the 30-second HTTP timeout are left out. The id list and a map from id to fetch outcome are parameters.
- An error raised while dumping a checkpoint is not modelled. The model's dumps always succeed.
- PlayerFetch.PlayerLogFetcher.SaveCheckpoint, PlayerFetch.ResumeAfterInterruption: the two dumps (add_player_stats.py:63-64) are one step here. A kill between them leaves the new frame beside the old set; a restart then re-fetches the ids processed since the previous checkpoint and appends their rows twice. That torn state is not captured.
- The catch-all `except Exception` and `FileNotFoundError` handlers that only print are modelled as a `Raised` outcome. No text is printed.
- Printing, progress messages and number formatting (`:.2%`, `:.1f`) are left out, including the count and date in the WNBA training-size error message.
- The two `RandomForestRegressor.fit` errors (no training sample, no feature column) are `Raised` with sklearn's message without the array shape it prints.
- `pd.to_datetime` is left out. Dates are integers.
- Floating point is left out. Stats are exact reals, and a NaN or inf from a zero denominator is `None`.
- pandas sorts with an unstable quicksort. The model uses a stable insertion sort (`Seqs.SortBy`). The source leaves the order of rows with equal keys unspecified, and no stated property depends on it.
- The team-then-date sorts (feature_engineering.py:20, feature_engineering_wnba.py:18, feature_engineering_v2.py:40) are modelled as date-only sorts. The grouped transforms see each group in date order either way, so every value is the same. The output rows differ in order: the scripts emit them in home-team-then-date order (feature_engineering.py:49-51, feature_engineering_wnba.py:44-46, feature_engineering_v2.py:61), the model in date order across all teams.
- groupby().last() returns one row per player in ascending id order. The model returns them in order of first appearance. The side sums of add_player_stats.py do not depend on that order. `PlayerFeatures.Ranked` does: when players tie on rolling PTS across rank 1, 5 or 10, the stable sort keeps them in groupby order, so the top-1, top-5 and bench sums of the other five stats can differ from the script's.
- RandomForest training and prediction are left out. A prediction is an uninterpreted function of the training games and the feature values.
- `input()` is left out. The typed answers are a list of strings, and an exhausted list raises, as end of input does.
- `float()` parsing is left out. It is a parameter of the forecast context.
- `Forecast.Upper`: `str.upper()` is modelled for ASCII letters only, because Unicode case mapping is out of scope.
- `Forecast.KnownAbbr`: reading `team_id_map.get(id)` as a truth value is modelled as "known and non-empty". Other falsy values cannot occur in a map of abbreviation strings.
- `PlayerAggregate.AddPlayerStats`: the final `dropna` (add_player_stats.py:129) is not modelled. Pandas sums are always defined, and the processed games file has no missing value.
- The raw stats are assumed to have no NaN. The scripts read them from the stats service, which reports every box-score column.
- `sys.exit` is modelled by its effect. An unknown league is `Forecast.ChooseLeague` returning no league. An empty schedule is the run returning the existing log unchanged.

## Findings

| source | as written | input that shows it | evidently intended | confidence | as-written member | corrected member |
|---|---|---|---|---|---|---|
| add_player_stats.py:114-115 | a player belongs to a side when the side's abbreviation occurs anywhere in the player's last MATCHUP, which names both teams | a LAL player whose last game was "LAL @ BOS" is summed on both sides of a BOS game | a player counts only for the team they play for, the team MATCHUP names first | not executed | PlayerAggregate.OpponentCountedTwice | PlayerAggregate.OwnTeamSidesDisjoint |
| feature_engineering_nba_players_v2.py:36-42 | the loop runs over every distinct (GAME_ID, GAME_DATE, MATCHUP), and `matchup.split(' vs. ')[1]` raises IndexError on an away row | a games file with rows "BOS vs. LAL" and "LAL @ BOS" for one game | the loop runs over the home rows, the only rows naming both teams as "home vs. away" | not executed | PlayerFeatures.AsWrittenAbortsOnBothSides | PlayerFeatures.CorrectedNeverAborts |
| feature_engineering_v2.py:36-55 | the factor frame keeps only TEAM_ABBREVIATION, GAME_DATE, GAME_ID and the four factors, so the home/away split on MATCHUP raises KeyError | any raw games file | MATCHUP kept in the factor frame, so the split and the advantage features are computed | not executed | FourFactors.AsWrittenAlwaysRaises | FourFactors.CorrectedGames |
