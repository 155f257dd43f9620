/** The walk-forward backtests for the NBA and the WNBA: the games are put in
    date order and joined with the embedded Vegas lines through a team-name
    map, a model is trained only on the games before the first game of the
    test set, and its predictions are bet by the tier strategy of Betting.
    The trained model is an uninterpreted function of the feature columns,
    the training rows and the row to predict. */
module Backtest {
  import opened Wrappers
  import opened Seqs
  import opened Betting

  /** A row of the game-level feature file: the home side's game id, date and
      abbreviation, its final point differential and the feature values. */
  datatype GameRow = GameRow(gameId: int, date: int, homeAbbr: string, pointDiff: real, features: seq<real>)

  /** A row of the odds table: date, full team names and the spread. */
  datatype OddsRow = OddsRow(date: int, homeTeam: string, awayTeam: string, spread: real)

  /** team_name_map of the NBA backtest. */
  const NbaTeams: map<string, string> := map[
    "Atlanta Hawks" := "ATL", "Boston Celtics" := "BOS", "Brooklyn Nets" := "BKN",
    "Charlotte Hornets" := "CHA", "Chicago Bulls" := "CHI", "Cleveland Cavaliers" := "CLE",
    "Dallas Mavericks" := "DAL", "Denver Nuggets" := "DEN", "Detroit Pistons" := "DET",
    "Golden State Warriors" := "GSW", "Houston Rockets" := "HOU", "Indiana Pacers" := "IND",
    "Los Angeles Clippers" := "LAC", "Los Angeles Lakers" := "LAL", "Memphis Grizzlies" := "MEM",
    "Miami Heat" := "MIA", "Milwaukee Bucks" := "MIL", "Minnesota Timberwolves" := "MIN",
    "New Orleans Pelicans" := "NOP", "New York Knicks" := "NYK", "Oklahoma City Thunder" := "OKC",
    "Orlando Magic" := "ORL", "Philadelphia 76ers" := "PHI", "Phoenix Suns" := "PHX",
    "Portland Trail Blazers" := "POR", "Sacramento Kings" := "SAC", "San Antonio Spurs" := "SAS",
    "Toronto Raptors" := "TOR", "Utah Jazz" := "UTA", "Washington Wizards" := "WAS"
  ]

  /** wnba_team_name_map of the WNBA backtest. */
  const WnbaTeams: map<string, string> := map[
    "Atlanta Dream" := "ATL", "Chicago Sky" := "CHI", "Connecticut Sun" := "CON",
    "Dallas Wings" := "DAL", "Indiana Fever" := "IND", "Las Vegas Aces" := "LVA",
    "Los Angeles Sparks" := "LAS", "Minnesota Lynx" := "MIN", "New York Liberty" := "NYL",
    "Phoenix Mercury" := "PHO", "Seattle Storm" := "SEA", "Washington Mystics" := "WAS"
  ]

  /** Series.map over a dictionary: a name missing from it maps to NaN. */
  function Abbreviation(names: map<string, string>, team: string): (r: Option<string>)
    ensures r.Some? <==> team in names
    ensures r.Some? ==> r.value == names[team]
  {
    if team in names then Some(names[team]) else None
  }

  /** The join keys agree: same date, and the odds row's mapped home team is
      the game's home abbreviation. */
  predicate Matches(names: map<string, string>, g: GameRow, o: OddsRow)
  {
    g.date == o.date && Abbreviation(names, o.homeTeam) == Some(g.homeAbbr)
  }

  /** The odds rows that join with one game, in odds order. */
  function MatchesOf(names: map<string, string>, g: GameRow, odds: seq<OddsRow>): (r: seq<(GameRow, OddsRow)>)
    ensures forall p :: p in r <==> p.0 == g && p.1 in odds && Matches(names, g, p.1)
  {
    if odds == [] then []
    else
      var init := MatchesOf(names, g, odds[..|odds| - 1]);
      var o := odds[|odds| - 1];
      assert odds == odds[..|odds| - 1] + [o];
      if Matches(names, g, o) then init + [(g, o)] else init
  }

  /** pd.merge(games, odds) on (date, home abbreviation): an inner join that
      keeps the order of the games. */
  function Merge(names: map<string, string>, games: seq<GameRow>, odds: seq<OddsRow>): (r: seq<(GameRow, OddsRow)>)
    ensures forall p :: p in r <==> p.0 in games && p.1 in odds && Matches(names, p.0, p.1)
  {
    if games == [] then []
    else
      var g := games[|games| - 1];
      assert games == games[..|games| - 1] + [g];
      Merge(names, games[..|games| - 1], odds) + MatchesOf(names, g, odds)
  }

  /** An odds row whose team is missing from the name map joins no game. */
  lemma UnmappedNeverJoins(names: map<string, string>, games: seq<GameRow>, odds: seq<OddsRow>, o: OddsRow)
    requires o.homeTeam !in names
    ensures forall p :: p in Merge(names, games, odds) ==> p.1 != o
  {
  }

  /** The join of date-ordered games is itself in date order. */
  lemma {:induction false} MergeInDateOrder(names: map<string, string>, games: seq<GameRow>, odds: seq<OddsRow>)
    requires forall i, j :: 0 <= i < j < |games| ==> games[i].date <= games[j].date
    ensures forall i, j :: 0 <= i < j < |Merge(names, games, odds)| ==>
      Merge(names, games, odds)[i].0.date <= Merge(names, games, odds)[j].0.date
  {
    if games != [] {
      var init := games[..|games| - 1];
      var g := games[|games| - 1];
      MergeInDateOrder(names, init, odds);
      var a: seq<(GameRow, OddsRow)> := Merge(names, init, odds);
      var b: seq<(GameRow, OddsRow)> := MatchesOf(names, g, odds);
      assert Merge(names, games, odds) == a + b;
      forall i, j | 0 <= i < j < |a + b|
        ensures (a + b)[i].0.date <= (a + b)[j].0.date
      {
        if j >= |a| {
          assert (a + b)[j] in b;
          if i < |a| {
            assert a[i] in a;
            var k :| 0 <= k < |init| && init[k] == a[i].0;
            assert games[k] == init[k];
          } else {
            assert (a + b)[i] in b;
          }
        }
      }
    }
  }

  /** test_df['GAME_DATE_home'].min() */
  function MinDate(pairs: seq<(GameRow, OddsRow)>): (d: int)
    requires pairs != []
    ensures exists i :: 0 <= i < |pairs| && pairs[i].0.date == d
    ensures forall i :: 0 <= i < |pairs| ==> d <= pairs[i].0.date
  {
    if |pairs| == 1 then pairs[0].0.date
    else
      var m := MinDate(pairs[..|pairs| - 1]);
      assert forall i :: 0 <= i < |pairs| - 1 ==> pairs[..|pairs| - 1][i] == pairs[i];
      if pairs[|pairs| - 1].0.date < m then pairs[|pairs| - 1].0.date else m
  }

  function EarlierThan(first: int): GameRow -> bool
  {
    (g: GameRow) => g.date < first
  }

  /** games_df[games_df['GAME_DATE_home'] < first_test_date] */
  function TrainSet(games: seq<GameRow>, first: int): (train: seq<GameRow>)
    ensures forall g :: g in train <==> g in games && g.date < first
  {
    Filter(games, EarlierThan(first))
  }

  function EndsWith(s: string, suffix: string): bool
  {
    |suffix| <= |s| && s[|s| - |suffix|..] == suffix
  }

  function IsDiff(): string -> bool
  {
    (c: string) => EndsWith(c, "_diff")
  }

  /** The feature columns: those whose name ends in "_diff", in file order. */
  function FeatureColumns(columns: seq<string>): (features: seq<string>)
    ensures forall c :: c in features <==> c in columns && EndsWith(c, "_diff")
  {
    Filter(columns, IsDiff())
  }

  /** A trained model's prediction for a row, given the feature columns and
      the training rows it was fitted on. */
  type Predictor = (seq<string>, seq<GameRow>, GameRow) -> real

  /** Step 4: each joined row becomes a test game carrying the model's
      prediction and the Vegas spread. */
  function TestGames(pairs: seq<(GameRow, OddsRow)>, features: seq<string>, train: seq<GameRow>,
                     predict: Predictor): (test: seq<TestGame>)
    ensures |test| == |pairs|
    ensures forall i :: 0 <= i < |pairs| ==>
      test[i].gameId == pairs[i].0.gameId && test[i].date == pairs[i].0.date &&
      test[i].homeAbbr == pairs[i].0.homeAbbr && test[i].pointDiff == pairs[i].0.pointDiff &&
      test[i].spread == pairs[i].1.spread &&
      Edge(test[i]) == predict(features, train, pairs[i].0) - pairs[i].1.spread
  {
    seq(|pairs|, i requires 0 <= i < |pairs| =>
      TestGame(pairs[i].0.gameId, pairs[i].0.date, pairs[i].0.homeAbbr, pairs[i].0.pointDiff,
               pairs[i].1.spread, predict(features, train, pairs[i].0)))
  }

  function DateKey(): GameRow -> real
  {
    (g: GameRow) => g.date as real
  }

  /** The errors RandomForestRegressor.fit raises on a training matrix with
      no row or with no column. */
  const NoSamples: string := "Found array with 0 sample(s) while a minimum of 1 is required by RandomForestRegressor."
  const NoFeatures: string := "Found array with 0 feature(s) while a minimum of 1 is required by RandomForestRegressor."

  /** One backtest run: the report of the bets, no report when no game is
      bet, or the error that ends the run. `minTrain` is the least number of
      training games the run accepts and `noOverlap` the message of the
      error raised on an empty join; fitting the model fails on an empty
      training set or when no column is a feature. */
  function Run(names: map<string, string>, minTrain: nat, noOverlap: string, games: seq<GameRow>,
               columns: seq<string>, odds: seq<OddsRow>, predict: Predictor): Outcome<Option<Summary>>
  {
    var sorted := SortBy(games, DateKey());
    var pairs := Merge(names, sorted, odds);
    if |pairs| < 1 then Raised(noOverlap)
    else
      var train := TrainSet(sorted, MinDate(pairs));
      if |train| < minTrain then Raised("Not enough historical data before the first test date to train a reliable model.")
      else if train == [] then Raised(NoSamples)
      else if FeatureColumns(columns) == [] then Raised(NoFeatures)
      else
        var test := TestGames(pairs, FeatureColumns(columns), train, predict);
        Done(ReportBets(Selected(test)))
  }

  /** backtest_final_strategy.py: no minimum training size. */
  function NbaBacktest(games: seq<GameRow>, columns: seq<string>, odds: seq<OddsRow>, predict: Predictor): Outcome<Option<Summary>>
  {
    Run(NbaTeams, 0, "No overlapping games found between the feature data and the odds data.",
        games, columns, odds, predict)
  }

  /** backtest_wnba_strategy.py: at least 20 training games. */
  function WnbaBacktest(games: seq<GameRow>, columns: seq<string>, odds: seq<OddsRow>, predict: Predictor): Outcome<Option<Summary>>
  {
    Run(WnbaTeams, 20, "No overlapping games found between the WNBA feature data and the odds data.",
        games, columns, odds, predict)
  }

  /** The test set in the order the run uses: the joined rows of the
      date-ordered games. */
  function TestPairs(names: map<string, string>, games: seq<GameRow>, odds: seq<OddsRow>): seq<(GameRow, OddsRow)>
  {
    Merge(names, SortBy(games, DateKey()), odds)
  }

  /** The run fails exactly when no game has a line, when fewer games than
      the minimum precede the first test date, when none does, or when no
      column is a feature. */
  lemma RunOutcome(names: map<string, string>, minTrain: nat, noOverlap: string, games: seq<GameRow>,
                   columns: seq<string>, odds: seq<OddsRow>, predict: Predictor)
    ensures var pairs := TestPairs(names, games, odds);
      Run(names, minTrain, noOverlap, games, columns, odds, predict).Raised? <==>
        pairs == [] ||
        |TrainSet(SortBy(games, DateKey()), MinDate(pairs))| < minTrain ||
        TrainSet(SortBy(games, DateKey()), MinDate(pairs)) == [] ||
        FeatureColumns(columns) == []
    ensures TestPairs(names, games, odds) == [] ==>
      Run(names, minTrain, noOverlap, games, columns, odds, predict) == Raised(noOverlap)
  {
  }

  /** The WNBA run raises whenever fewer than 20 games come before the first
      game with a line. */
  lemma WnbaTrainingGuard(games: seq<GameRow>, columns: seq<string>, odds: seq<OddsRow>, predict: Predictor)
    ensures var pairs := TestPairs(WnbaTeams, games, odds);
      pairs != [] && |TrainSet(SortBy(games, DateKey()), MinDate(pairs))| < 20 ==>
        WnbaBacktest(games, columns, odds, predict).Raised?
  {
    RunOutcome(WnbaTeams, 20, "No overlapping games found between the WNBA feature data and the odds data.",
               games, columns, odds, predict);
  }

  /** The NBA run has no minimum training size of its own: once some game
      has a line and some column is a feature, it completes exactly when at
      least one game precedes the first test date, and otherwise fitting
      the model raises. */
  lemma NbaTrainingUnguarded(games: seq<GameRow>, columns: seq<string>, odds: seq<OddsRow>, predict: Predictor)
    ensures var pairs := TestPairs(NbaTeams, games, odds);
      pairs != [] && FeatureColumns(columns) != [] ==>
        (NbaBacktest(games, columns, odds, predict).Done? <==> TrainSet(SortBy(games, DateKey()), MinDate(pairs)) != []) &&
        (TrainSet(SortBy(games, DateKey()), MinDate(pairs)) == [] ==> NbaBacktest(games, columns, odds, predict) == Raised(NoSamples))
  {
    RunOutcome(NbaTeams, 0, "No overlapping games found between the feature data and the odds data.",
               games, columns, odds, predict);
  }

  /** Walk-forward: the training games are exactly the games dated before the
      first test game, so each is earlier than every test game, and no test
      game is trained on. */
  lemma {:induction false} WalkForward(names: map<string, string>, games: seq<GameRow>, odds: seq<OddsRow>)
    requires TestPairs(names, games, odds) != []
    ensures var pairs := TestPairs(names, games, odds);
      var train := TrainSet(SortBy(games, DateKey()), MinDate(pairs));
      (forall g :: g in train <==> g in games && g.date < MinDate(pairs)) &&
      (forall g, i :: g in train && 0 <= i < |pairs| ==> g.date < pairs[i].0.date && g != pairs[i].0)
  {
    var sorted := SortBy(games, DateKey());
    assert forall g :: g in sorted <==> g in games by {
      forall g ensures g in sorted <==> g in games {
        assert g in sorted <==> g in multiset(sorted);
        assert g in games <==> g in multiset(games);
      }
    }
  }

  /** The test set is in date order, so its first game is on the first test
      date. */
  lemma TestSetInDateOrder(names: map<string, string>, games: seq<GameRow>, odds: seq<OddsRow>)
    ensures forall i, j :: 0 <= i < j < |TestPairs(names, games, odds)| ==>
      TestPairs(names, games, odds)[i].0.date <= TestPairs(names, games, odds)[j].0.date
    ensures TestPairs(names, games, odds) != [] ==>
      MinDate(TestPairs(names, games, odds)) == TestPairs(names, games, odds)[0].0.date
  {
    var sorted := SortBy(games, DateKey());
    assert forall i, j :: 0 <= i < j < |sorted| ==> DateKey()(sorted[i]) <= DateKey()(sorted[j]);
    MergeInDateOrder(names, sorted, odds);
  }
}
