/** The master feature set: Dean Oliver's Four Factors of every team-game,
    each team's shifted 10-game rolling factor means, one row per game with
    the home-minus-away advantage of each factor, and the player aggregates
    merged in when that file exists. */
module FourFactors {
  import opened Wrappers
  import opened Seqs
  import opened Rolling

  const Window: nat := 10
  /** eFG_PCT, TOV_PCT, ORB_PCT, FT_RATE, in that order. */
  const FactorCount: nat := 4

  /** One team's box score in one game, as the raw games file holds it. */
  datatype BoxScore = BoxScore(teamId: int, abbr: string, gameId: int, gameDate: int, matchup: string,
                               fgm: real, fga: real, fg3m: real, ftm: real, fta: real,
                               oreb: real, dreb: real, tov: real)

  /** A row of the self-merge: a team's box score beside another row of the
      same game (the `_opp` columns). */
  datatype Pair = Pair(own: BoxScore, opp: BoxScore)

  // ---------------------------------------------------------------------
  // The opponent self-merge

  /** The rows of the same GAME_ID and GAME_DATE as `own`, in frame order. */
  function PairsFor(own: BoxScore, rows: seq<BoxScore>): (ps: seq<Pair>)
    ensures forall p :: p in ps <==>
      p.own == own && p.opp in rows && p.opp.gameId == own.gameId && p.opp.gameDate == own.gameDate
  {
    if rows == [] then []
    else
      var o := rows[|rows| - 1];
      assert rows == rows[..|rows| - 1] + [o];
      var rest := PairsFor(own, rows[..|rows| - 1]);
      if o.gameId == own.gameId && o.gameDate == own.gameDate then rest + [Pair(own, o)] else rest
  }

  /** pd.merge(df, df, on=[GAME_ID, GAME_DATE]): every pair of rows of the
      same game, in left-row order. */
  function SelfMerge(left: seq<BoxScore>, right: seq<BoxScore>): (ps: seq<Pair>)
    ensures forall p :: p in ps <==>
      p.own in left && p.opp in right && p.opp.gameId == p.own.gameId && p.opp.gameDate == p.own.gameDate
  {
    if left == [] then []
    else
      var l := left[|left| - 1];
      assert left == left[..|left| - 1] + [l];
      SelfMerge(left[..|left| - 1], right) + PairsFor(l, right)
  }

  function OtherTeam(): Pair -> bool
  {
    (p: Pair) => p.own.teamId != p.opp.teamId
  }

  /** merged[TEAM_ID != TEAM_ID_opp]: each row beside the other team's rows
      of the same game. */
  function Opponents(rows: seq<BoxScore>): (ps: seq<Pair>)
    ensures forall p :: p in ps <==>
      p.own in rows && p.opp in rows && p.opp.gameId == p.own.gameId &&
      p.opp.gameDate == p.own.gameDate && p.own.teamId != p.opp.teamId
  {
    Filter(SelfMerge(rows, rows), OtherTeam())
  }

  lemma PairsForGame(own: BoxScore, home: BoxScore, away: BoxScore)
    requires home.gameId == away.gameId == own.gameId && home.gameDate == away.gameDate == own.gameDate
    ensures PairsFor(own, [home, away]) == [Pair(own, home), Pair(own, away)]
  {
    assert [home, away][..1] == [home];
    assert [home][..0] == [];
    assert PairsFor(own, []) == [];
    assert PairsFor(own, [home]) == [Pair(own, home)];
  }

  lemma FilterTwoGames(home: BoxScore, away: BoxScore)
    requires home.teamId != away.teamId
    ensures Filter([Pair(home, home), Pair(home, away), Pair(away, home), Pair(away, away)], OtherTeam())
      == [Pair(home, away), Pair(away, home)]
  {
    var m := [Pair(home, home), Pair(home, away), Pair(away, home), Pair(away, away)];
    var p := OtherTeam();
    assert m[..3][..2][..1][..0] == [];
    assert Filter(m[..3][..2][..1], p) == [];
    assert Filter(m[..3][..2], p) == [Pair(home, away)];
    assert Filter(m[..3], p) == [Pair(home, away), Pair(away, home)];
  }

  /** A game with its two rows gives each team exactly its opponent. */
  lemma OpponentsOfOneGame(home: BoxScore, away: BoxScore)
    requires home.gameId == away.gameId && home.gameDate == away.gameDate && home.teamId != away.teamId
    ensures Opponents([home, away]) == [Pair(home, away), Pair(away, home)]
  {
    var rows := [home, away];
    PairsForGame(home, home, away);
    PairsForGame(away, home, away);
    assert rows[..1] == [home] && [home][..0] == [];
    assert SelfMerge([], rows) == [];
    assert SelfMerge([home], rows) == [Pair(home, home), Pair(home, away)];
    assert SelfMerge(rows, rows) == [Pair(home, home), Pair(home, away)] + [Pair(away, home), Pair(away, away)]
      == [Pair(home, home), Pair(home, away), Pair(away, home), Pair(away, away)];
    FilterTwoGames(home, away);
    assert Opponents(rows) == Filter(SelfMerge(rows, rows), OtherTeam());
  }

  // ---------------------------------------------------------------------
  // The Four Factors

  /** Float division: a zero denominator gives inf or NaN in pandas, which
      the model carries as a missing value. */
  function Ratio(num: real, den: real): (r: Option<real>)
    ensures r.Some? <==> den != 0.0
  {
    if den == 0.0 then None else Some(num / den)
  }

  /** eFG% = (FGM + 0.5 * FG3M) / FGA */
  function EffectiveFgPct(b: BoxScore): Option<real>
  {
    Ratio(b.fgm + 0.5 * b.fg3m, b.fga)
  }

  /** TOV% = TOV / (FGA + 0.44 * FTA + TOV) */
  function TurnoverPct(b: BoxScore): Option<real>
  {
    Ratio(b.tov, b.fga + 0.44 * b.fta + b.tov)
  }

  /** ORB% = OREB / (OREB + the opponent's DREB) */
  function OffRebPct(p: Pair): Option<real>
  {
    Ratio(p.own.oreb, p.own.oreb + p.opp.dreb)
  }

  /** FT rate = FTM / FGA */
  function FreeThrowRate(b: BoxScore): Option<real>
  {
    Ratio(b.ftm, b.fga)
  }

  type Factors = s: seq<Option<real>> | |s| == FactorCount witness [None, None, None, None]

  /** A row of four_factors_df, with the MATCHUP of its box score kept
      beside it. */
  datatype FactorRow = FactorRow(abbr: string, gameDate: int, gameId: int, matchup: string, factors: Factors)

  function FactorsOf(p: Pair): (r: FactorRow)
    ensures r.abbr == p.own.abbr && r.gameDate == p.own.gameDate && r.gameId == p.own.gameId
  {
    FactorRow(p.own.abbr, p.own.gameDate, p.own.gameId, p.own.matchup,
              [EffectiveFgPct(p.own), TurnoverPct(p.own), OffRebPct(p), FreeThrowRate(p.own)])
  }

  /** A box score whose counts are consistent: nothing negative, three-point
      makes among field-goal makes, makes among attempts. */
  predicate Plausible(b: BoxScore)
  {
    0.0 <= b.fg3m <= b.fgm <= b.fga && 0.0 <= b.ftm <= b.fta &&
    0.0 <= b.oreb && 0.0 <= b.dreb && 0.0 <= b.tov
  }

  lemma RatioBetween(num: real, den: real, hi: real)
    requires 0.0 <= num <= hi * den && 0.0 < den
    ensures 0.0 <= num / den <= hi
  {
  }

  /** On consistent box scores the factors are what their names say: eFG%
      lies between 0 and 1.5 (a three counts one and a half makes), TOV% and
      ORB% are shares between 0 and 1, and the free-throw rate is not
      negative; each is defined as soon as its denominator is positive. */
  lemma FactorBounds(p: Pair)
    requires Plausible(p.own) && Plausible(p.opp)
    ensures var f := FactorsOf(p).factors;
      (p.own.fga > 0.0 ==> f[0].Some? && 0.0 <= f[0].value <= 1.5) &&
      (p.own.fga + p.own.tov > 0.0 ==> f[1].Some? && 0.0 <= f[1].value <= 1.0) &&
      (p.own.oreb + p.opp.dreb > 0.0 ==> f[2].Some? && 0.0 <= f[2].value <= 1.0) &&
      (p.own.fga > 0.0 ==> f[3].Some? && 0.0 <= f[3].value)
  {
    var b := p.own;
    if b.fga > 0.0 {
      RatioBetween(b.fgm + 0.5 * b.fg3m, b.fga, 1.5);
      assert b.ftm / b.fga >= 0.0;
    }
    var d := b.fga + 0.44 * b.fta + b.tov;
    if b.fga + b.tov > 0.0 {
      RatioBetween(b.tov, d, 1.0);
    }
    if b.oreb + p.opp.dreb > 0.0 {
      RatioBetween(b.oreb, b.oreb + p.opp.dreb, 1.0);
    }
  }

  /** four_factors_df: the factors of every row of the filtered self-merge. */
  function FactorFrame(raw: seq<BoxScore>): (rows: seq<FactorRow>)
  {
    var ps := Opponents(raw);
    seq(|ps|, i requires 0 <= i < |ps| => FactorsOf(ps[i]))
  }

  // ---------------------------------------------------------------------
  // Rolling factor means and dropna

  function DateKey(r: FactorRow): real
  {
    r.gameDate as real
  }

  function Abbrs(rows: seq<FactorRow>): (ks: seq<string>)
    ensures |ks| == |rows|
  {
    seq(|rows|, i requires 0 <= i < |rows| => rows[i].abbr)
  }

  function FactorColumn(rows: seq<FactorRow>, c: nat): (col: seq<Option<real>>)
    requires c < FactorCount
    ensures |col| == |rows|
  {
    seq(|rows|, i requires 0 <= i < |rows| => rows[i].factors[c])
  }

  /** <factor>_roll_10 over a frame already in date order. */
  function RollFactor(sorted: seq<FactorRow>, c: nat): (col: seq<Option<real>>)
    requires c < FactorCount
    ensures |col| == |sorted|
  {
    GroupShiftedRollingGaps(Abbrs(sorted), FactorColumn(sorted, c), Window)
  }

  function RollFactors(sorted: seq<FactorRow>): (cols: seq<seq<Option<real>>>)
    ensures |cols| == FactorCount
    ensures forall c :: 0 <= c < FactorCount ==> |cols[c]| == |sorted|
  {
    seq(FactorCount, c requires 0 <= c < FactorCount => RollFactor(sorted, c))
  }

  /** The loop that adds the four rolling columns one factor at a time. */
  method AddRollingFactors(sorted: seq<FactorRow>) returns (cols: seq<seq<Option<real>>>)
    ensures cols == RollFactors(sorted)
  {
    cols := [];
    for c := 0 to FactorCount
      invariant |cols| == c
      invariant forall d :: 0 <= d < c ==> cols[d] == RollFactor(sorted, d)
    {
      cols := cols + [RollFactor(sorted, c)];
    }
  }

  /** A factor row with its four rolling columns. */
  datatype RolledRow = RolledRow(row: FactorRow, rolls: Factors)

  function Assemble(sorted: seq<FactorRow>, cols: seq<seq<Option<real>>>): (frame: seq<RolledRow>)
    requires |cols| == FactorCount
    requires forall c :: 0 <= c < FactorCount ==> |cols[c]| == |sorted|
    ensures |frame| == |sorted|
    ensures forall i :: 0 <= i < |frame| ==> frame[i].row == sorted[i]
  {
    seq(|sorted|, i requires 0 <= i < |sorted| =>
      RolledRow(sorted[i], seq(FactorCount, c requires 0 <= c < FactorCount => cols[c][i])))
  }

  /** The factor frame in date order with its rolling columns. */
  function Rolled(rows: seq<FactorRow>): (frame: seq<RolledRow>)
    ensures |frame| == |rows|
  {
    var sorted := SortBy(rows, DateKey);
    Assemble(sorted, RollFactors(sorted))
  }

  /** No look-ahead: a row's rolling factor is the mean of its team's 10
      previous values of the factor, missing while the team has fewer than
      10 earlier rows or when one of those 10 values is missing. */
  lemma RolledAt(rows: seq<FactorRow>, i: nat, c: nat)
    requires i < |rows| && c < FactorCount
    ensures var sorted := SortBy(rows, DateKey);
      var prior := GroupValues(Abbrs(sorted), FactorColumn(sorted, c), sorted[i].abbr, i);
      SortedBy(sorted, DateKey) && multiset(sorted) == multiset(rows) &&
      Rolled(rows)[i].row == sorted[i] &&
      Rolled(rows)[i].rolls[c] == LastWindowMean(prior, Window)
  {
    var sorted := SortBy(rows, DateKey);
    var cols := RollFactors(sorted);
    var keys, vals := Abbrs(sorted), FactorColumn(sorted, c);
    assert Rolled(rows) == Assemble(sorted, cols);
    assert Rolled(rows)[i].rolls[c] == cols[c][i] == GroupShiftedRollingGaps(keys, vals, Window)[i];
    GroupShiftedRollingGapsAt(keys, vals, Window, i, sorted[i].abbr);
  }

  /** A row after dropna: all four factors and all four rolling means. */
  datatype CleanRow = CleanRow(abbr: string, gameDate: int, gameId: int, matchup: string,
                               factors: seq<real>, rolls: seq<real>)

  predicate Complete(r: RolledRow)
  {
    AllDefined(r.row.factors) && AllDefined(r.rolls)
  }

  function CleanOf(r: RolledRow): (c: CleanRow)
    requires Complete(r)
    ensures |c.factors| == FactorCount && |c.rolls| == FactorCount
  {
    CleanRow(r.row.abbr, r.row.gameDate, r.row.gameId, r.row.matchup, Values(r.row.factors), Values(r.rolls))
  }

  /** dropna(): the rows with no missing value, in order. */
  function DropNa(frame: seq<RolledRow>): (clean: seq<CleanRow>)
    ensures forall x :: x in clean <==> exists f :: f in frame && Complete(f) && x == CleanOf(f)
  {
    if frame == [] then []
    else
      var f := frame[|frame| - 1];
      assert frame == frame[..|frame| - 1] + [f];
      var rest := DropNa(frame[..|frame| - 1]);
      if Complete(f) then rest + [CleanOf(f)] else rest
  }

  /** Every surviving row has one value per factor. */
  lemma CleanWidth(frame: seq<RolledRow>)
    ensures forall x :: x in DropNa(frame) ==> |x.factors| == FactorCount && |x.rolls| == FactorCount
  {
    forall x | x in DropNa(frame)
      ensures |x.factors| == FactorCount && |x.rolls| == FactorCount
    {
      var f :| f in frame && Complete(f) && x == CleanOf(f);
    }
  }

  // ---------------------------------------------------------------------
  // One row per game

  predicate IsAway(r: CleanRow)
  {
    Contains(r.matchup, "@")
  }

  function AwayMask(): CleanRow -> bool
  {
    (r: CleanRow) => IsAway(r)
  }

  function HomeMask(): CleanRow -> bool
  {
    (r: CleanRow) => !IsAway(r)
  }

  /** The '@' test splits the rows: each row is home or away, never both, and
      none is lost or repeated. */
  lemma HomeAwayPartition(clean: seq<CleanRow>)
    ensures multiset(Filter(clean, HomeMask())) + multiset(Filter(clean, AwayMask())) == multiset(clean)
    ensures forall r :: r in Filter(clean, AwayMask()) <==> r in clean && IsAway(r)
    ensures forall r :: r in Filter(clean, HomeMask()) <==> r in clean && !IsAway(r)
  {
    FilterPartition(clean, HomeMask(), AwayMask());
  }

  /** A row of final_df: the home and away rows of a game and the four
      <factor>_advantage columns. */
  datatype GameRow = GameRow(home: CleanRow, away: CleanRow, advantage: seq<real>)

  /** <factor>_advantage = home rolling factor - away rolling factor. */
  function Advantage(home: CleanRow, away: CleanRow): (a: seq<real>)
    requires |home.rolls| == FactorCount && |away.rolls| == FactorCount
    ensures |a| == FactorCount
    ensures forall c :: 0 <= c < FactorCount ==> a[c] == home.rolls[c] - away.rolls[c]
  {
    seq(FactorCount, c requires 0 <= c < FactorCount => home.rolls[c] - away.rolls[c])
  }

  /** Swapping the sides negates every advantage. */
  lemma AdvantageAntisymmetric(home: CleanRow, away: CleanRow)
    requires |home.rolls| == FactorCount && |away.rolls| == FactorCount
    ensures forall c :: 0 <= c < FactorCount ==> Advantage(away, home)[c] == -Advantage(home, away)[c]
  {
  }

  /** The away rows of one home row's game, in order. */
  function GamesOf(h: CleanRow, away: seq<CleanRow>): (r: seq<GameRow>)
    requires |h.rolls| == FactorCount
    requires forall a :: a in away ==> |a.rolls| == FactorCount
    ensures forall g :: g in r <==>
      (g.home == h && g.away in away && g.away.gameId == h.gameId && g.advantage == Advantage(h, g.away))
  {
    if away == [] then []
    else
      var a := away[|away| - 1];
      assert away == away[..|away| - 1] + [a];
      var rest := GamesOf(h, away[..|away| - 1]);
      if a.gameId == h.gameId then rest + [GameRow(h, a, Advantage(h, a))] else rest
  }

  /** pd.merge(home, away, on the game id), with the advantages added. */
  function PairGames(home: seq<CleanRow>, away: seq<CleanRow>): (r: seq<GameRow>)
    requires forall h :: h in home ==> |h.rolls| == FactorCount
    requires forall a :: a in away ==> |a.rolls| == FactorCount
    ensures forall g :: g in r <==>
      (g.home in home && g.away in away && g.away.gameId == g.home.gameId && g.advantage == Advantage(g.home, g.away))
  {
    if home == [] then []
    else
      var h := home[|home| - 1];
      assert home == home[..|home| - 1] + [h];
      PairGames(home[..|home| - 1], away) + GamesOf(h, away)
  }

  // ---------------------------------------------------------------------
  // The optional player merge and the whole script

  /** A row of the player file: GAME_ID_home, its player_ columns and
      point_differential. */
  datatype PlayerGame = PlayerGame(gameIdHome: int, players: seq<real>, pointDiff: real)

  /** A row of the master file: a game, and its player columns when the
      player file was merged. */
  datatype MasterRow = MasterRow(game: GameRow, players: Option<PlayerGame>)

  function WithPlayers(g: GameRow, ps: seq<PlayerGame>): (r: seq<MasterRow>)
    ensures forall m :: m in r <==> m.game == g && exists p :: p in ps && p.gameIdHome == g.home.gameId && m.players == Some(p)
  {
    if ps == [] then []
    else
      var p := ps[|ps| - 1];
      assert ps == ps[..|ps| - 1] + [p];
      var rest := WithPlayers(g, ps[..|ps| - 1]);
      if p.gameIdHome == g.home.gameId then rest + [MasterRow(g, Some(p))] else rest
  }

  /** Step 6: with no player file the games pass through unchanged; with one,
      an inner merge on GAME_ID_home. */
  function MergePlayers(games: seq<GameRow>, file: Option<seq<PlayerGame>>): (r: seq<MasterRow>)
    ensures file.None? ==> |r| == |games| && forall i :: 0 <= i < |r| ==> r[i] == MasterRow(games[i], None)
    ensures file.Some? ==> forall m :: m in r <==>
      m.game in games && exists p :: p in file.value && p.gameIdHome == m.game.home.gameId && m.players == Some(p)
  {
    match file
    case None => seq(|games|, i requires 0 <= i < |games| => MasterRow(games[i], None))
    case Some(ps) =>
      if games == [] then []
      else
        var g := games[|games| - 1];
        assert games == games[..|games| - 1] + [g];
        MergePlayers(games[..|games| - 1], file) + WithPlayers(g, ps)
  }

  /** The columns four_factors_df keeps (line 36 of the script). */
  const SelectedColumns: seq<string> :=
    ["TEAM_ABBREVIATION", "GAME_DATE", "GAME_ID", "eFG_PCT", "TOV_PCT", "ORB_PCT", "FT_RATE"]

  const MatchupMissing: string := "'MATCHUP'"

  /** final_df before the player merge: the home and away rows left after
      dropna, paired on the game id. */
  function Games(raw: seq<BoxScore>): (games: seq<GameRow>)
    ensures var clean := DropNa(Rolled(FactorFrame(raw)));
      forall g :: g in games <==>
        (g.home in clean && !IsAway(g.home) && g.away in clean && IsAway(g.away) &&
         g.away.gameId == g.home.gameId && g.advantage == Advantage(g.home, g.away))
  {
    var frame := Rolled(FactorFrame(raw));
    var clean := DropNa(frame);
    CleanWidth(frame);
    HomeAwayPartition(clean);
    PairGames(Filter(clean, HomeMask()), Filter(clean, AwayMask()))
  }

  /** Steps 2 to 6, given the columns the factor frame keeps: the home/away
      split reads MATCHUP and raises KeyError when it was not kept. */
  function MasterFeatures(raw: seq<BoxScore>, columns: seq<string>, file: Option<seq<PlayerGame>>): (r: Outcome<seq<MasterRow>>)
    ensures r.Raised? <==> "MATCHUP" !in columns
  {
    if "MATCHUP" !in columns then Raised(MatchupMissing)
    else Done(MergePlayers(Games(raw), file))
  }

  /** feature_engineering_v2.py as written. */
  function MasterAsWritten(raw: seq<BoxScore>, file: Option<seq<PlayerGame>>): Outcome<seq<MasterRow>>
  {
    MasterFeatures(raw, SelectedColumns, file)
  }

  /** As written, the factor frame drops MATCHUP, so every run ends in the
      catch-all handler with a KeyError and writes nothing. */
  lemma AsWrittenAlwaysRaises(raw: seq<BoxScore>, file: Option<seq<PlayerGame>>)
    ensures MasterAsWritten(raw, file) == Raised(MatchupMissing)
  {
    assert forall k :: 0 <= k < |SelectedColumns| ==> SelectedColumns[k] != "MATCHUP";
  }

  /** Corrected: MATCHUP kept beside the selected columns. */
  function MasterCorrected(raw: seq<BoxScore>, file: Option<seq<PlayerGame>>): Outcome<seq<MasterRow>>
  {
    MasterFeatures(raw, SelectedColumns + ["MATCHUP"], file)
  }

  /** Corrected, every run completes, and each output row joins a home row
      and an away row of the same game after dropna, with advantage = home
      rolling factor - away rolling factor; without a player file every game
      passes through. */
  lemma CorrectedGames(raw: seq<BoxScore>, file: Option<seq<PlayerGame>>)
    ensures MasterCorrected(raw, file).Done?
    ensures var clean := DropNa(Rolled(FactorFrame(raw)));
      forall m :: m in MasterCorrected(raw, file).value ==>
        m.game.home in clean && !IsAway(m.game.home) &&
        m.game.away in clean && IsAway(m.game.away) &&
        m.game.home.gameId == m.game.away.gameId &&
        |m.game.advantage| == FactorCount &&
        forall c :: 0 <= c < FactorCount ==> m.game.advantage[c] == m.game.home.rolls[c] - m.game.away.rolls[c]
    ensures file.None? ==> |MasterCorrected(raw, file).value| == |Games(raw)|
  {
    assert "MATCHUP" in SelectedColumns + ["MATCHUP"];
    var games := Games(raw);
    var r := MasterCorrected(raw, file).value;
    forall m | m in r
      ensures m.game in games
    {
      if file.None? {
        var i :| 0 <= i < |r| && r[i] == m;
      }
    }
  }
}
