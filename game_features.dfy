/** The two game-level feature scripts: per-team smoothed stats computed
    from earlier games only (a shifted 10-game rolling mean for the NBA, a
    shifted exponentially weighted mean with alpha 0.1 for the WNBA), rows
    with a missing value dropped, the rows split into home and away by the
    '@' of the matchup, and home and away rows paired on the game id. */
module GameFeatures {
  import opened Wrappers
  import opened Seqs
  import opened Rolling

  /** ROLLING_WINDOW of the NBA script. */
  const NbaWindow: nat := 10

  /** stats_to_roll: FG_PCT, FT_PCT, FG3_PCT, AST, REB, TOV, PTS. */
  const NbaStatCount: nat := 7

  /** ALPHA of the WNBA script. */
  const WnbaAlpha: real := 0.1

  /** stats_to_average: FGM, FGA, FG_PCT, FG3M, FG3A, FG3_PCT, FTM, FTA,
      FT_PCT, OREB, DREB, REB, AST, STL, BLK, TOV, PF, PTS. */
  const WnbaStatCount: nat := 18

  /** A row of the raw games file: one team in one game, with its final
      point differential (PLUS_MINUS) and the stats being smoothed. */
  datatype TeamGame = TeamGame(gameId: int, team: string, gameDate: int, matchup: string,
                               pointDiff: real, stats: seq<real>)

  /** Every row carries n stats. */
  predicate HasStats(rows: seq<TeamGame>, n: nat)
  {
    forall r :: r in rows ==> |r.stats| == n
  }

  /** The per-group statistic: a shifted rolling mean over w games, or a
      shifted exponentially weighted mean. */
  datatype Smoother = Window(w: nat) | Ewm(alpha: real)

  predicate ValidSmoother(sm: Smoother)
  {
    match sm
    case Window(w) => w > 0
    case Ewm(alpha) => 0.0 < alpha <= 1.0
  }

  function DateKey(): TeamGame -> real
  {
    (r: TeamGame) => r.gameDate as real
  }

  /** The frame in date order. */
  function SortedGames(rows: seq<TeamGame>, n: nat): (sorted: seq<TeamGame>)
    requires HasStats(rows, n)
    ensures HasStats(sorted, n) && SortedBy(sorted, DateKey()) && multiset(sorted) == multiset(rows)
  {
    var s := SortBy(rows, DateKey());
    assert forall r :: r in s ==> r in rows by {
      forall r | r in s ensures r in rows {
        assert r in multiset(s);
      }
    }
    s
  }

  function Teams(rows: seq<TeamGame>): (ks: seq<string>)
    ensures |ks| == |rows|
  {
    seq(|rows|, i requires 0 <= i < |rows| => rows[i].team)
  }

  function Column(rows: seq<TeamGame>, n: nat, c: nat): (vs: seq<real>)
    requires HasStats(rows, n) && c < n
    ensures |vs| == |rows|
  {
    seq(|rows|, i requires 0 <= i < |rows| => assert rows[i] in rows; rows[i].stats[c])
  }

  /** groupby('TEAM_ABBREVIATION')[stat].transform(...) over a frame in date
      order. */
  function Smooth(sorted: seq<TeamGame>, n: nat, c: nat, sm: Smoother): (col: seq<Option<real>>)
    requires HasStats(sorted, n) && c < n && ValidSmoother(sm)
    ensures |col| == |sorted|
  {
    match sm
    case Window(w) => GroupShiftedRolling(Teams(sorted), Column(sorted, n, c), w)
    case Ewm(alpha) => GroupShiftedEwma(Teams(sorted), Column(sorted, n, c), alpha)
  }

  function SmoothColumns(sorted: seq<TeamGame>, n: nat, sm: Smoother): (cols: seq<seq<Option<real>>>)
    requires HasStats(sorted, n) && ValidSmoother(sm)
    ensures |cols| == n && forall c :: 0 <= c < n ==> |cols[c]| == |sorted|
  {
    seq(n, c requires 0 <= c < n => Smooth(sorted, n, c, sm))
  }

  /** The loop that adds one smoothed column per stat. */
  method AddSmoothedColumns(sorted: seq<TeamGame>, n: nat, sm: Smoother) returns (cols: seq<seq<Option<real>>>)
    requires HasStats(sorted, n) && ValidSmoother(sm)
    ensures cols == SmoothColumns(sorted, n, sm)
  {
    cols := [];
    for c := 0 to n
      invariant |cols| == c
      invariant forall d :: 0 <= d < c ==> cols[d] == Smooth(sorted, n, d, sm)
    {
      var col := Smooth(sorted, n, c, sm);
      cols := cols + [col];
    }
  }

  /** A row with its smoothed values, missing while undefined. */
  datatype Featured = Featured(game: TeamGame, feats: seq<Option<real>>)

  function Attach(sorted: seq<TeamGame>, n: nat, cols: seq<seq<Option<real>>>): (frame: seq<Featured>)
    requires |cols| == n && forall c :: 0 <= c < n ==> |cols[c]| == |sorted|
    ensures |frame| == |sorted|
    ensures forall i :: 0 <= i < |sorted| ==> frame[i].game == sorted[i] && |frame[i].feats| == n
    ensures forall i, c :: 0 <= i < |sorted| && 0 <= c < n ==> frame[i].feats[c] == cols[c][i]
  {
    seq(|sorted|, i requires 0 <= i < |sorted| =>
      Featured(sorted[i], seq(n, c requires 0 <= c < n => cols[c][i])))
  }

  /** Steps 1 and 2: the frame sorted by date with its smoothed columns. */
  function SmoothedFrame(rows: seq<TeamGame>, n: nat, sm: Smoother): (frame: seq<Featured>)
    requires HasStats(rows, n) && ValidSmoother(sm)
    ensures |frame| == |rows|
    ensures forall f :: f in frame ==> |f.feats| == n
  {
    var sorted := SortedGames(rows, n);
    Attach(sorted, n, SmoothColumns(sorted, n, sm))
  }

  /** The number of games of row i's team earlier in the sorted frame. */
  function Earlier(sorted: seq<TeamGame>, i: nat): nat
    requires i < |sorted|
  {
    GroupSize(Teams(sorted), sorted[i].team, i)
  }

  /** The values of stat c in the earlier games of row i's team. */
  function Prior(sorted: seq<TeamGame>, n: nat, i: nat, c: nat): (prior: seq<real>)
    requires HasStats(sorted, n) && i < |sorted| && c < n
    ensures |prior| == Earlier(sorted, i)
  {
    GroupValuesSize(Teams(sorted), Column(sorted, n, c), sorted[i].team, i);
    GroupValues(Teams(sorted), Column(sorted, n, c), sorted[i].team, i)
  }

  /** Row i of the smoothed frame is row i of the sorted frame, with the
      smoothed column values at i. */
  lemma SmoothedAt(rows: seq<TeamGame>, n: nat, sm: Smoother, i: nat, c: nat)
    requires HasStats(rows, n) && ValidSmoother(sm) && i < |rows| && c < n
    ensures var sorted := SortedGames(rows, n);
      SmoothedFrame(rows, n, sm)[i].game == sorted[i] &&
      SmoothedFrame(rows, n, sm)[i].feats[c] == Smooth(sorted, n, c, sm)[i]
  {
    var sorted := SortedGames(rows, n);
    var cols := SmoothColumns(sorted, n, sm);
    assert cols[c] == Smooth(sorted, n, c, sm);
  }

  /** No look-ahead, NBA: the smoothed stat of a row is the mean of its
      team's 10 previous values, and missing for the team's first 10 games. */
  lemma WindowAt(rows: seq<TeamGame>, n: nat, w: nat, i: nat, c: nat)
    requires HasStats(rows, n) && w > 0 && i < |rows| && c < n
    ensures var sorted := SortedGames(rows, n);
      var prior := Prior(sorted, n, i, c);
      SmoothedFrame(rows, n, Window(w))[i].game == sorted[i] &&
      SmoothedFrame(rows, n, Window(w))[i].feats[c] == MeanOfLast(prior, w)
  {
    var sorted := SortedGames(rows, n);
    var col := Smooth(sorted, n, c, Window(w));
    SmoothedAt(rows, n, Window(w), i, c);
    assert col == GroupShiftedRolling(Teams(sorted), Column(sorted, n, c), w);
    GroupShiftedRollingAt(Teams(sorted), Column(sorted, n, c), w, i, sorted[i].team);
    assert Prior(sorted, n, i, c) == GroupValues(Teams(sorted), Column(sorted, n, c), sorted[i].team, i);
  }

  /** No look-ahead, WNBA: the smoothed stat is missing at a team's first
      game, equals the previous game's value at its second, and otherwise
      mixes the previous smoothed value with the previous game's value. */
  lemma EwmAt(rows: seq<TeamGame>, n: nat, alpha: real, i: nat, c: nat)
    requires HasStats(rows, n) && 0.0 < alpha <= 1.0 && i < |rows| && c < n
    ensures var sorted := SortedGames(rows, n);
      var prior := Prior(sorted, n, i, c);
      var v := SmoothedFrame(rows, n, Ewm(alpha))[i].feats[c];
      SmoothedFrame(rows, n, Ewm(alpha))[i].game == sorted[i] &&
      (prior == [] ==> v == None) &&
      (|prior| == 1 ==> v == Some(prior[0])) &&
      (|prior| > 1 ==> v == Some(Mix(Ewma(prior, alpha)[|prior| - 2], prior[|prior| - 1], alpha))) &&
      (prior != [] ==> v == Some(Ewma(prior, alpha)[|prior| - 1]))
  {
    var sorted := SortedGames(rows, n);
    var prior := Prior(sorted, n, i, c);
    var v := SmoothedFrame(rows, n, Ewm(alpha))[i].feats[c];
    SmoothedAt(rows, n, Ewm(alpha), i, c);
    assert v == GroupShiftedEwma(Teams(sorted), Column(sorted, n, c), alpha)[i];
    GroupShiftedEwmaAt(Teams(sorted), Column(sorted, n, c), alpha, i, sorted[i].team);
    assert prior != [] ==> v == Some(Ewma(prior, alpha)[|prior| - 1]);
    if |prior| > 1 {
      EwmaRecurrence(prior, alpha, |prior| - 1);
    } else if |prior| == 1 {
      assert Ewma(prior, alpha) == prior;
    }
  }

  // ---------------------------------------------------------------------
  // dropna

  /** A row without a missing value. */
  datatype Clean = Clean(game: TeamGame, feats: seq<real>)

  /** df.dropna(): the rows whose smoothed values are all present, in order. */
  function DropNa(frame: seq<Featured>): (clean: seq<Clean>)
    ensures |clean| <= |frame|
    ensures forall f :: f in frame && AllDefined(f.feats) ==> Clean(f.game, Values(f.feats)) in clean
    ensures forall x :: x in clean ==> exists f :: f in frame && AllDefined(f.feats) && x == Clean(f.game, Values(f.feats))
  {
    if frame == [] then []
    else
      var f := frame[|frame| - 1];
      var init := frame[..|frame| - 1];
      assert frame == init + [f];
      var rest := DropNa(init);
      if AllDefined(f.feats) then rest + [Clean(f.game, Values(f.feats))] else rest
  }

  /** NBA: a row survives dropna exactly when its team has at least 10
      earlier games. */
  lemma WindowKept(rows: seq<TeamGame>, n: nat, w: nat, i: nat)
    requires HasStats(rows, n) && n > 0 && w > 0 && i < |rows|
    ensures AllDefined(SmoothedFrame(rows, n, Window(w))[i].feats) <==> Earlier(SortedGames(rows, n), i) >= w
  {
    var sorted := SortedGames(rows, n);
    forall c | 0 <= c < n
      ensures SmoothedFrame(rows, n, Window(w))[i].feats[c].Some? <==> Earlier(sorted, i) >= w
    {
      WindowAt(rows, n, w, i, c);
    }
    if Earlier(sorted, i) < w {
      assert SmoothedFrame(rows, n, Window(w))[i].feats[0].None?;
    }
  }

  /** WNBA: a row survives dropna exactly when it is not its team's first
      game. */
  lemma EwmKept(rows: seq<TeamGame>, n: nat, alpha: real, i: nat)
    requires HasStats(rows, n) && n > 0 && 0.0 < alpha <= 1.0 && i < |rows|
    ensures AllDefined(SmoothedFrame(rows, n, Ewm(alpha))[i].feats) <==> Earlier(SortedGames(rows, n), i) > 0
  {
    var sorted := SortedGames(rows, n);
    forall c | 0 <= c < n
      ensures SmoothedFrame(rows, n, Ewm(alpha))[i].feats[c].Some? <==> Earlier(sorted, i) > 0
    {
      EwmAt(rows, n, alpha, i, c);
    }
    if Earlier(sorted, i) == 0 {
      assert SmoothedFrame(rows, n, Ewm(alpha))[i].feats[0].None?;
    }
  }

  // ---------------------------------------------------------------------
  // Home and away

  predicate IsAway(r: Clean)
  {
    Contains(r.game.matchup, "@")
  }

  function AwayMask(): Clean -> bool
  {
    (r: Clean) => IsAway(r)
  }

  function HomeMask(): Clean -> bool
  {
    (r: Clean) => !IsAway(r)
  }

  function AwayGames(clean: seq<Clean>): seq<Clean>
  {
    Filter(clean, AwayMask())
  }

  function HomeGames(clean: seq<Clean>): seq<Clean>
  {
    Filter(clean, HomeMask())
  }

  /** The '@' test splits the rows: each row is away or home, never both,
      and no row is lost or repeated. */
  lemma HomeAwayPartition(clean: seq<Clean>)
    ensures multiset(HomeGames(clean)) + multiset(AwayGames(clean)) == multiset(clean)
    ensures forall r :: r in AwayGames(clean) <==> r in clean && IsAway(r)
    ensures forall r :: r in HomeGames(clean) <==> r in clean && !IsAway(r)
  {
    FilterPartition(clean, HomeMask(), AwayMask());
  }

  /** The away rows that share a home row's game id, in frame order. */
  function PairsOf(h: Clean, away: seq<Clean>): (r: seq<(Clean, Clean)>)
    ensures forall p :: p in r <==> p.0 == h && p.1 in away && p.1.game.gameId == h.game.gameId
  {
    if away == [] then []
    else
      var a := away[|away| - 1];
      assert away == away[..|away| - 1] + [a];
      var rest := PairsOf(h, away[..|away| - 1]);
      if a.game.gameId == h.game.gameId then rest + [(h, a)] else rest
  }

  /** pd.merge(home, away, on the game id): every (home, away) pair with
      equal game ids, in home-row order. */
  function PairOnGameId(home: seq<Clean>, away: seq<Clean>): (r: seq<(Clean, Clean)>)
    ensures forall p :: p in r <==> p.0 in home && p.1 in away && p.1.game.gameId == p.0.game.gameId
  {
    if home == [] then []
    else
      var h := home[|home| - 1];
      assert home == home[..|home| - 1] + [h];
      PairOnGameId(home[..|home| - 1], away) + PairsOf(h, away)
  }

  /** The paired rows of a frame after dropna. */
  function Paired(clean: seq<Clean>): seq<(Clean, Clean)>
  {
    PairOnGameId(HomeGames(clean), AwayGames(clean))
  }

  /** Each pair joins a home row and an away row of the same game. */
  lemma PairedExact(clean: seq<Clean>)
    ensures forall p :: p in Paired(clean) <==>
      p.0 in clean && p.1 in clean && !IsAway(p.0) && IsAway(p.1) && p.0.game.gameId == p.1.game.gameId
  {
    HomeAwayPartition(clean);
  }

  // ---------------------------------------------------------------------
  // Outputs

  /** A row of the NBA processed file: the game id and date, the two teams,
      the seven rolling stats of each side, home_team_won and
      point_differential (the 20 columns of features_to_keep, in order). */
  datatype NbaGame = NbaGame(gameId: int, date: int, homeTeam: string, awayTeam: string,
                             homeRolls: seq<real>, awayRolls: seq<real>, homeTeamWon: int, pointDiff: real)

  function NbaGameOf(p: (Clean, Clean)): (g: NbaGame)
    ensures g.homeTeamWon == 1 <==> p.0.game.pointDiff > 0.0
    ensures g.homeTeamWon == 0 <==> p.0.game.pointDiff <= 0.0
    ensures g.pointDiff == p.0.game.pointDiff && g.gameId == p.0.game.gameId && g.date == p.0.game.gameDate
    ensures g.homeTeam == p.0.game.team && g.awayTeam == p.1.game.team
    ensures g.homeRolls == p.0.feats && g.awayRolls == p.1.feats
  {
    var h := p.0;
    NbaGame(h.game.gameId, h.game.gameDate, h.game.team, p.1.game.team, h.feats, p.1.feats,
            if h.game.pointDiff > 0.0 then 1 else 0, h.game.pointDiff)
  }

  /** feature_engineering.py, end to end. */
  function NbaFeatures(rows: seq<TeamGame>): (out: seq<NbaGame>)
    requires HasStats(rows, NbaStatCount)
  {
    var pairs := Paired(DropNa(SmoothedFrame(rows, NbaStatCount, Window(NbaWindow))));
    seq(|pairs|, i requires 0 <= i < |pairs| => NbaGameOf(pairs[i]))
  }

  /** A row of the WNBA feature file: the game id and date, the two teams,
      the 18 home-minus-away differences and point_differential. */
  datatype WnbaGame = WnbaGame(gameId: int, date: int, homeTeam: string, awayTeam: string,
                               diffs: seq<real>, pointDiff: real)

  /** stat_diff = home ewma - away ewma, for each stat. */
  function Diffs(home: seq<real>, away: seq<real>): (d: seq<real>)
    requires |home| == |away|
    ensures |d| == |home| && forall c :: 0 <= c < |d| ==> d[c] == home[c] - away[c]
  {
    seq(|home|, c requires 0 <= c < |home| => home[c] - away[c])
  }

  /** The differences change sign when the sides are swapped. */
  lemma DiffsAntisymmetric(home: seq<real>, away: seq<real>)
    requires |home| == |away|
    ensures forall c :: 0 <= c < |home| ==> Diffs(home, away)[c] == -Diffs(away, home)[c]
  {
  }

  function WnbaGameOf(p: (Clean, Clean)): (g: WnbaGame)
    requires |p.0.feats| == |p.1.feats|
    ensures g.gameId == p.0.game.gameId && g.date == p.0.game.gameDate && g.pointDiff == p.0.game.pointDiff
    ensures g.homeTeam == p.0.game.team && g.awayTeam == p.1.game.team
    ensures |g.diffs| == |p.0.feats| && forall c :: 0 <= c < |g.diffs| ==> g.diffs[c] == p.0.feats[c] - p.1.feats[c]
  {
    WnbaGame(p.0.game.gameId, p.0.game.gameDate, p.0.game.team, p.1.game.team, Diffs(p.0.feats, p.1.feats), p.0.game.pointDiff)
  }

  /** After dropna every row has one value per stat. */
  lemma CleanWidth(rows: seq<TeamGame>, n: nat, sm: Smoother)
    requires HasStats(rows, n) && ValidSmoother(sm)
    ensures forall x :: x in DropNa(SmoothedFrame(rows, n, sm)) ==> |x.feats| == n
  {
    var frame := SmoothedFrame(rows, n, sm);
    forall x | x in DropNa(frame) ensures |x.feats| == n {
      var f :| f in frame && AllDefined(f.feats) && x == Clean(f.game, Values(f.feats));
    }
  }

  /** feature_engineering_wnba.py, end to end. */
  function WnbaFeatures(rows: seq<TeamGame>): (out: seq<WnbaGame>)
    requires HasStats(rows, WnbaStatCount)
  {
    var clean := DropNa(SmoothedFrame(rows, WnbaStatCount, Ewm(WnbaAlpha)));
    CleanWidth(rows, WnbaStatCount, Ewm(WnbaAlpha));
    var pairs := Paired(clean);
    PairedExact(clean);
    seq(|pairs|, i requires 0 <= i < |pairs| => assert pairs[i] in pairs; WnbaGameOf(pairs[i]))
  }

  /** Every NBA output row comes from a home row and an away row of the same
      game, both with every rolling value defined. */
  lemma NbaRowsFromPairs(rows: seq<TeamGame>)
    requires HasStats(rows, NbaStatCount)
    ensures forall g :: g in NbaFeatures(rows) ==>
      exists p :: p in Paired(DropNa(SmoothedFrame(rows, NbaStatCount, Window(NbaWindow)))) && g == NbaGameOf(p) &&
        !IsAway(p.0) && IsAway(p.1) && p.0.game.gameId == p.1.game.gameId
  {
    var pairs := Paired(DropNa(SmoothedFrame(rows, NbaStatCount, Window(NbaWindow))));
    PairedExact(DropNa(SmoothedFrame(rows, NbaStatCount, Window(NbaWindow))));
    forall g | g in NbaFeatures(rows)
      ensures exists p :: p in pairs && g == NbaGameOf(p) && !IsAway(p.0) && IsAway(p.1) && p.0.game.gameId == p.1.game.gameId
    {
      var i :| 0 <= i < |NbaFeatures(rows)| && NbaFeatures(rows)[i] == g;
      assert pairs[i] in pairs;
    }
  }

  // ---------------------------------------------------------------------
  // No look-ahead, end to end

  /** A row left by dropna is row i of the date-sorted frame, with the
      smoothed values of that row. */
  lemma CleanFromRow(rows: seq<TeamGame>, n: nat, sm: Smoother, x: Clean) returns (i: nat)
    requires HasStats(rows, n) && ValidSmoother(sm) && x in DropNa(SmoothedFrame(rows, n, sm))
    ensures i < |rows| && x.game == SortedGames(rows, n)[i]
    ensures AllDefined(SmoothedFrame(rows, n, sm)[i].feats) && x.feats == Values(SmoothedFrame(rows, n, sm)[i].feats)
  {
    var sorted := SortedGames(rows, n);
    var frame := SmoothedFrame(rows, n, sm);
    assert frame == Attach(sorted, n, SmoothColumns(sorted, n, sm));
    var f :| f in frame && AllDefined(f.feats) && x == Clean(f.game, Values(f.feats));
    var k :| 0 <= k < |frame| && frame[k] == f;
    i := k;
  }

  /** Row i of the date-sorted frame has at least w earlier games of its
      team, and vs[c] is the mean of stat c over the last w of them. */
  predicate MeanOfLastGames(sorted: seq<TeamGame>, n: nat, i: nat, c: nat, w: nat, vs: seq<real>)
    requires HasStats(sorted, n) && i < |sorted| && c < n
  {
    var prior := Prior(sorted, n, i, c);
    0 < w <= |prior| && c < |vs| && vs[c] == Mean(prior[|prior| - w..])
  }

  /** Row i of the date-sorted frame has an earlier game of its team, and
      vs[c] is the exponentially weighted mean of stat c over those games. */
  predicate EwmOfEarlierGames(sorted: seq<TeamGame>, n: nat, i: nat, c: nat, alpha: real, v: real)
    requires HasStats(sorted, n) && i < |sorted| && c < n
  {
    var prior := Prior(sorted, n, i, c);
    prior != [] && v == Ewma(prior, alpha)[|prior| - 1]
  }

  /** A row of the NBA smoothed frame whose values are all present holds,
      for each stat, the mean of its team's 10 previous games. */
  lemma DefinedWindowAt(rows: seq<TeamGame>, i: nat, c: nat)
    requires HasStats(rows, NbaStatCount) && i < |rows| && c < NbaStatCount
    requires AllDefined(SmoothedFrame(rows, NbaStatCount, Window(NbaWindow))[i].feats)
    ensures MeanOfLastGames(SortedGames(rows, NbaStatCount), NbaStatCount, i, c, NbaWindow,
                            Values(SmoothedFrame(rows, NbaStatCount, Window(NbaWindow))[i].feats))
  {
    var frame := SmoothedFrame(rows, NbaStatCount, Window(NbaWindow));
    assert frame[i] in frame;
    var v := frame[i].feats[c];
    assert v.Some?;
    WindowAt(rows, NbaStatCount, NbaWindow, i, c);
  }

  /** An NBA row left by dropna holds, for each stat, the mean of its
      team's 10 previous games. */
  lemma CleanWindowAt(rows: seq<TeamGame>, x: Clean, c: nat) returns (i: nat)
    requires HasStats(rows, NbaStatCount) && c < NbaStatCount
    requires x in DropNa(SmoothedFrame(rows, NbaStatCount, Window(NbaWindow)))
    ensures i < |rows| && x.game == SortedGames(rows, NbaStatCount)[i]
    ensures MeanOfLastGames(SortedGames(rows, NbaStatCount), NbaStatCount, i, c, NbaWindow, x.feats)
  {
    i := CleanFromRow(rows, NbaStatCount, Window(NbaWindow), x);
    DefinedWindowAt(rows, i, c);
  }

  /** feature_engineering.py uses no game on or after the one it describes:
      each NBA output row joins the home row and the away row of its game,
      and each side's rolling stat is the mean of that team's 10 previous
      games. */
  lemma {:induction false} NbaRowsLookBack(rows: seq<TeamGame>, g: NbaGame, c: nat)
    requires HasStats(rows, NbaStatCount) && g in NbaFeatures(rows) && c < NbaStatCount
    ensures var sorted := SortedGames(rows, NbaStatCount);
      exists i, j :: 0 <= i < |sorted| && 0 <= j < |sorted| &&
        sorted[i].gameId == g.gameId && sorted[j].gameId == g.gameId &&
        sorted[i].team == g.homeTeam && sorted[j].team == g.awayTeam &&
        !Contains(sorted[i].matchup, "@") && Contains(sorted[j].matchup, "@") &&
        MeanOfLastGames(sorted, NbaStatCount, i, c, NbaWindow, g.homeRolls) &&
        MeanOfLastGames(sorted, NbaStatCount, j, c, NbaWindow, g.awayRolls)
  {
    var clean := DropNa(SmoothedFrame(rows, NbaStatCount, Window(NbaWindow)));
    NbaRowsFromPairs(rows);
    PairedExact(clean);
    var p :| p in Paired(clean) && g == NbaGameOf(p) && !IsAway(p.0) && IsAway(p.1) && p.0.game.gameId == p.1.game.gameId;
    var i := CleanWindowAt(rows, p.0, c);
    var j := CleanWindowAt(rows, p.1, c);
  }

  /** A WNBA row left by dropna holds, for each stat, the exponentially
      weighted mean of its team's earlier games. */
  lemma CleanEwmAt(rows: seq<TeamGame>, x: Clean, c: nat) returns (i: nat)
    requires HasStats(rows, WnbaStatCount) && c < WnbaStatCount
    requires x in DropNa(SmoothedFrame(rows, WnbaStatCount, Ewm(WnbaAlpha)))
    ensures i < |rows| && x.game == SortedGames(rows, WnbaStatCount)[i] && c < |x.feats|
    ensures EwmOfEarlierGames(SortedGames(rows, WnbaStatCount), WnbaStatCount, i, c, WnbaAlpha, x.feats[c])
  {
    var frame := SmoothedFrame(rows, WnbaStatCount, Ewm(WnbaAlpha));
    i := CleanFromRow(rows, WnbaStatCount, Ewm(WnbaAlpha), x);
    assert frame[i] in frame;
    var v := frame[i].feats[c];
    assert v.Some?;
    assert x.feats[c] == v.value;
    EwmAt(rows, WnbaStatCount, WnbaAlpha, i, c);
  }

  /** Every WNBA output row comes from a home row and an away row of the
      same game, both with every smoothed value defined. */
  lemma WnbaRowFromPair(rows: seq<TeamGame>, g: WnbaGame) returns (p: (Clean, Clean))
    requires HasStats(rows, WnbaStatCount) && g in WnbaFeatures(rows)
    ensures p.0 in DropNa(SmoothedFrame(rows, WnbaStatCount, Ewm(WnbaAlpha)))
    ensures p.1 in DropNa(SmoothedFrame(rows, WnbaStatCount, Ewm(WnbaAlpha)))
    ensures !IsAway(p.0) && IsAway(p.1) && p.0.game.gameId == p.1.game.gameId
    ensures |p.0.feats| == |p.1.feats| && g == WnbaGameOf(p)
  {
    var clean := DropNa(SmoothedFrame(rows, WnbaStatCount, Ewm(WnbaAlpha)));
    CleanWidth(rows, WnbaStatCount, Ewm(WnbaAlpha));
    PairedExact(clean);
    var pairs := Paired(clean);
    var k :| 0 <= k < |WnbaFeatures(rows)| && WnbaFeatures(rows)[k] == g;
    p := pairs[k];
    assert p in pairs;
  }

  /** feature_engineering_wnba.py uses no game on or after the one it
      describes: each output row joins the home row and the away row of its
      game, and each difference is the home team's exponentially weighted
      mean over its earlier games minus the away team's. */
  lemma {:induction false} WnbaRowsLookBack(rows: seq<TeamGame>, g: WnbaGame, c: nat)
    requires HasStats(rows, WnbaStatCount) && g in WnbaFeatures(rows) && c < WnbaStatCount
    ensures var sorted := SortedGames(rows, WnbaStatCount);
      exists i, j, hv, av :: 0 <= i < |sorted| && 0 <= j < |sorted| &&
        sorted[i].gameId == g.gameId && sorted[j].gameId == g.gameId &&
        sorted[i].team == g.homeTeam && sorted[j].team == g.awayTeam &&
        !Contains(sorted[i].matchup, "@") && Contains(sorted[j].matchup, "@") &&
        EwmOfEarlierGames(sorted, WnbaStatCount, i, c, WnbaAlpha, hv) &&
        EwmOfEarlierGames(sorted, WnbaStatCount, j, c, WnbaAlpha, av) &&
        c < |g.diffs| && g.diffs[c] == hv - av
  {
    var p := WnbaRowFromPair(rows, g);
    var i := CleanEwmAt(rows, p.0, c);
    var j := CleanEwmAt(rows, p.1, c);
    assert g.diffs[c] == p.0.feats[c] - p.1.feats[c];
  }
}
