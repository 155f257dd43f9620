/** The rest of the player-stats script: each player's shifted 10-game
    rolling means, and for every processed game the sums of those means over
    the players of each side, taken from each player's latest row dated
    strictly before the game. */
module PlayerAggregate {
  import opened Wrappers
  import opened Seqs
  import opened Rolling
  import opened PlayerFetch

  const RollingWindow: nat := 10

  type RolledLine = s: seq<Option<real>> | |s| == PlayerStatCount witness seq(9, _ => None)

  /** A player row after the rolling columns are added: player_<stat>_roll_10
      for each of the nine stats, missing while undefined. */
  datatype RolledRow = RolledRow(playerId: PlayerId, gameDate: int, matchup: string, rolled: RolledLine)

  /** One processed game: its date and the two team abbreviations. */
  datatype GameKey = GameKey(date: int, homeAbbr: string, awayAbbr: string)

  /** The sums of the nine rolling columns over each side's players. */
  datatype GameAgg = GameAgg(home: seq<real>, away: seq<real>)

  /** A processed game with its player aggregates appended. */
  datatype GameWithPlayers = GameWithPlayers(game: GameKey, agg: GameAgg)

  function DateKey(r: GameLogRow): real
  {
    r.gameDate as real
  }

  function Keys(rows: seq<GameLogRow>): (ks: seq<PlayerId>)
    ensures |ks| == |rows|
  {
    seq(|rows|, i requires 0 <= i < |rows| => rows[i].playerId)
  }

  function Column(rows: seq<GameLogRow>, c: nat): (vs: seq<real>)
    requires c < PlayerStatCount
    ensures |vs| == |rows|
  {
    seq(|rows|, i requires 0 <= i < |rows| => rows[i].stats[c])
  }

  /** The rolling column of stat c over a frame already in date order. */
  function RollColumn(sorted: seq<GameLogRow>, c: nat): (col: seq<Option<real>>)
    requires c < PlayerStatCount
    ensures |col| == |sorted|
  {
    GroupShiftedRolling(Keys(sorted), Column(sorted, c), RollingWindow)
  }

  /** The nine rolling columns of a frame already in date order. */
  function RollColumns(sorted: seq<GameLogRow>): (cols: seq<seq<Option<real>>>)
    ensures |cols| == PlayerStatCount
    ensures forall c :: 0 <= c < PlayerStatCount ==> |cols[c]| == |sorted|
  {
    seq(PlayerStatCount, c requires 0 <= c < PlayerStatCount => RollColumn(sorted, c))
  }

  /** The frame with the rolling columns laid beside its rows. */
  function Assemble(sorted: seq<GameLogRow>, cols: seq<seq<Option<real>>>): (frame: seq<RolledRow>)
    requires |cols| == PlayerStatCount
    requires forall c :: 0 <= c < PlayerStatCount ==> |cols[c]| == |sorted|
    ensures |frame| == |sorted|
    ensures forall i :: 0 <= i < |sorted| ==>
      frame[i].playerId == sorted[i].playerId && frame[i].gameDate == sorted[i].gameDate && frame[i].matchup == sorted[i].matchup
    ensures forall i, c :: 0 <= i < |sorted| && 0 <= c < PlayerStatCount ==> frame[i].rolled[c] == cols[c][i]
  {
    seq(|sorted|, i requires 0 <= i < |sorted| =>
      RolledRow(sorted[i].playerId, sorted[i].gameDate, sorted[i].matchup,
                seq(PlayerStatCount, c requires 0 <= c < PlayerStatCount => cols[c][i])))
  }

  /** The frame in date order with its nine rolling columns. */
  function RollPlayerStats(rows: seq<GameLogRow>): (frame: seq<RolledRow>)
    ensures |frame| == |rows|
  {
    var sorted := SortBy(rows, DateKey);
    Assemble(sorted, RollColumns(sorted))
  }

  /** The rolled frame holds the input rows in date order, and a row's
      rolling value for a stat is the mean of that player's previous 10
      values of the stat, missing while the player has fewer than 10 earlier
      rows. */
  lemma RollPlayerStatsAt(rows: seq<GameLogRow>, i: nat, c: nat)
    requires i < |rows| && c < PlayerStatCount
    ensures var sorted := SortBy(rows, DateKey);
      var prior := GroupValues(Keys(sorted), Column(sorted, c), sorted[i].playerId, i);
      SortedBy(sorted, DateKey) && multiset(sorted) == multiset(rows) &&
      RollPlayerStats(rows)[i].playerId == sorted[i].playerId &&
      RollPlayerStats(rows)[i].rolled[c] == MeanOfLast(prior, RollingWindow)
  {
    var sorted := SortBy(rows, DateKey);
    var cols := RollColumns(sorted);
    var frame := RollPlayerStats(rows);
    assert frame == Assemble(sorted, cols);
    assert frame[i].rolled[c] == RollColumn(sorted, c)[i];
    GroupShiftedRollingAt(Keys(sorted), Column(sorted, c), RollingWindow, i, sorted[i].playerId);
  }

  /** The loop that adds the nine rolling columns one stat at a time. */
  method AddRollingColumns(sorted: seq<GameLogRow>) returns (cols: seq<seq<Option<real>>>)
    ensures cols == RollColumns(sorted)
  {
    cols := [];
    var c := 0;
    while c < PlayerStatCount
      invariant c <= PlayerStatCount && |cols| == c
      invariant forall d :: 0 <= d < c ==> cols[d] == RollColumn(sorted, d)
    {
      cols := cols + [RollColumn(sorted, c)];
      c := c + 1;
    }
    assert cols == RollColumns(sorted);
  }

  // ---------------------------------------------------------------------
  // Per-game aggregation

  predicate SameDay(a: RolledRow, b: RolledRow)
  {
    a.playerId == b.playerId && a.gameDate == b.gameDate
  }

  /** Row i is the last of the rows sharing its player and date. */
  predicate LastOfDay(rows: seq<RolledRow>, i: nat)
    requires i < |rows|
  {
    forall j :: i < j < |rows| ==> !SameDay(rows[j], rows[i])
  }

  /** drop_duplicates(subset=[Player_ID, GAME_DATE], keep='last'). */
  function KeepLast(rows: seq<RolledRow>): (r: seq<RolledRow>)
    ensures |r| <= |rows|
  {
    if rows == [] then []
    else if exists j :: 1 <= j < |rows| && SameDay(rows[j], rows[0]) then KeepLast(rows[1..])
    else [rows[0]] + KeepLast(rows[1..])
  }

  /** KeepLast keeps exactly the rows that are last of their player and
      date, and leaves no two rows with the same player and date. */
  lemma KeepLastExact(rows: seq<RolledRow>)
    ensures forall i :: 0 <= i < |rows| && LastOfDay(rows, i) ==> rows[i] in KeepLast(rows)
    ensures forall x :: x in KeepLast(rows) ==> exists i :: 0 <= i < |rows| && rows[i] == x && LastOfDay(rows, i)
    ensures forall a, b :: 0 <= a < b < |KeepLast(rows)| ==> !SameDay(KeepLast(rows)[a], KeepLast(rows)[b])
  {
    KeepLastComplete(rows);
    KeepLastSound(rows);
    KeepLastDistinct(rows);
  }

  lemma {:induction false} KeepLastComplete(rows: seq<RolledRow>)
    ensures forall i :: 0 <= i < |rows| && LastOfDay(rows, i) ==> rows[i] in KeepLast(rows)
  {
    if rows != [] {
      var tail := rows[1..];
      KeepLastComplete(tail);
      forall i | 0 <= i < |rows| && LastOfDay(rows, i)
        ensures rows[i] in KeepLast(rows)
      {
        if i > 0 {
          assert tail[i - 1] == rows[i];
          assert LastOfDay(tail, i - 1);
        }
      }
    }
  }

  lemma {:induction false} KeepLastSound(rows: seq<RolledRow>)
    ensures forall x :: x in KeepLast(rows) ==> exists i :: 0 <= i < |rows| && rows[i] == x && LastOfDay(rows, i)
  {
    if rows != [] {
      var tail := rows[1..];
      KeepLastSound(tail);
      forall x | x in KeepLast(rows)
        ensures exists i :: 0 <= i < |rows| && rows[i] == x && LastOfDay(rows, i)
      {
        if x in KeepLast(tail) {
          var i :| 0 <= i < |tail| && tail[i] == x && LastOfDay(tail, i);
          assert rows[i + 1] == x && LastOfDay(rows, i + 1);
        } else {
          assert x == rows[0] && LastOfDay(rows, 0);
        }
      }
    }
  }

  lemma {:induction false} KeepLastDistinct(rows: seq<RolledRow>)
    ensures forall a, b :: 0 <= a < b < |KeepLast(rows)| ==> !SameDay(KeepLast(rows)[a], KeepLast(rows)[b])
  {
    if rows != [] {
      var tail := rows[1..];
      KeepLastDistinct(tail);
      KeepLastSound(tail);
      if !exists j :: 1 <= j < |rows| && SameDay(rows[j], rows[0]) {
        var r := KeepLast(rows);
        assert r == [rows[0]] + KeepLast(tail);
        forall b | 0 < b < |r|
          ensures !SameDay(r[0], r[b])
        {
          assert r[b] in KeepLast(tail);
          var i :| 0 <= i < |tail| && tail[i] == r[b] && LastOfDay(tail, i);
          assert rows[i + 1] == r[b];
        }
        forall a, b | 0 < a < b < |r|
          ensures !SameDay(r[a], r[b])
        {
          assert r[a] == KeepLast(tail)[a - 1] && r[b] == KeepLast(tail)[b - 1];
        }
      }
    }
  }

  function BeforeDate(date: int): RolledRow -> bool
  {
    (r: RolledRow) => r.gameDate < date
  }

  function OfPlayer(pid: PlayerId): RolledRow -> bool
  {
    (r: RolledRow) => r.playerId == pid
  }

  /** The rows dated strictly before the game. */
  function Relevant(rows: seq<RolledRow>, date: int): (r: seq<RolledRow>)
    ensures forall x :: x in r <==> x in rows && x.gameDate < date
  {
    Filter(rows, BeforeDate(date))
  }

  function PlayerIds(rows: seq<RolledRow>): (ids: seq<PlayerId>)
    ensures |ids| == |rows|
  {
    seq(|rows|, i requires 0 <= i < |rows| => rows[i].playerId)
  }

  /** One row of groupby('Player_ID').last(): the player's MATCHUP and, per
      rolling column, the last value that is not missing. */
  datatype PlayerLatest = PlayerLatest(playerId: PlayerId, matchup: string, rolled: RolledLine)

  function Cells(rows: seq<RolledRow>, c: nat): (col: seq<Option<real>>)
    requires c < PlayerStatCount
    ensures |col| == |rows|
  {
    seq(|rows|, i requires 0 <= i < |rows| => rows[i].rolled[c])
  }

  lemma PresentPlayerHasRows(rows: seq<RolledRow>, pid: PlayerId)
    requires pid in PlayerIds(rows)
    ensures |Filter(rows, OfPlayer(pid))| > 0
  {
    var i :| 0 <= i < |rows| && PlayerIds(rows)[i] == pid;
    assert rows[i] in Filter(rows, OfPlayer(pid));
  }

  /** The groupby-last row of one player present in the frame. */
  function LatestOf(rows: seq<RolledRow>, pid: PlayerId): (p: PlayerLatest)
    requires pid in PlayerIds(rows)
    ensures p.playerId == pid
  {
    PresentPlayerHasRows(rows, pid);
    var mine := Filter(rows, OfPlayer(pid));
    PlayerLatest(pid, mine[|mine| - 1].matchup,
                 seq(PlayerStatCount, c requires 0 <= c < PlayerStatCount => LastPresent(Cells(mine, c))))
  }

  function LatestIds(latest: seq<PlayerLatest>): (ids: seq<PlayerId>)
    ensures |ids| == |latest|
  {
    seq(|latest|, k requires 0 <= k < |latest| => latest[k].playerId)
  }

  /** groupby('Player_ID').last(): exactly one row per player present. */
  function LatestRows(rows: seq<RolledRow>): (latest: seq<PlayerLatest>)
    ensures Distinct(LatestIds(latest))
    ensures Elems(LatestIds(latest)) == Elems(PlayerIds(rows))
    ensures forall k :: 0 <= k < |latest| ==> latest[k].playerId in PlayerIds(rows) && latest[k] == LatestOf(rows, latest[k].playerId)
  {
    var ids := FirstSeen({}, PlayerIds(rows));
    FirstSeenExact({}, PlayerIds(rows));
    var latest := seq(|ids|, k requires 0 <= k < |ids| =>
      assert ids[k] in Elems(ids);
      LatestOf(rows, ids[k]));
    assert forall k :: 0 <= k < |latest| ==> latest[k].playerId == ids[k] && ids[k] in Elems(ids);
    assert LatestIds(latest) == ids;
    latest
  }

  /** Each player's groupby-last row takes MATCHUP from the player's last row
      and each rolling column from the player's last row where it is present. */
  lemma LatestOfSpec(rows: seq<RolledRow>, pid: PlayerId, c: nat)
    requires pid in PlayerIds(rows) && c < PlayerStatCount
    ensures var mine := Filter(rows, OfPlayer(pid));
      |mine| > 0 && (forall x :: x in mine <==> x in rows && x.playerId == pid) &&
      LatestOf(rows, pid).matchup == mine[|mine| - 1].matchup &&
      (LatestOf(rows, pid).rolled[c].None? <==> forall i :: 0 <= i < |mine| ==> mine[i].rolled[c].None?) &&
      (LatestOf(rows, pid).rolled[c].Some? ==>
        exists i :: 0 <= i < |mine| && mine[i].rolled[c] == LatestOf(rows, pid).rolled[c] &&
          forall j :: i < j < |mine| ==> mine[j].rolled[c].None?)
  {
    PresentPlayerHasRows(rows, pid);
    var mine := Filter(rows, OfPlayer(pid));
    var col := Cells(mine, c);
    var v := LatestOf(rows, pid).rolled[c];
    assert v == LastPresent(col);
    assert forall i :: 0 <= i < |mine| ==> col[i] == mine[i].rolled[c];
    if v.Some? {
      var i := LastPresentAt(col);
      assert mine[i].rolled[c] == v;
    }
  }

  /** As written: a player belongs to a side when the side's abbreviation
      occurs anywhere in the player's last MATCHUP. */
  function PlaysIn(abbr: string): PlayerLatest -> bool
  {
    (p: PlayerLatest) => Contains(p.matchup, abbr)
  }

  /** One rolling column of the groupby-last rows. */
  function LatestCells(players: seq<PlayerLatest>, c: nat): (col: seq<Option<real>>)
    requires c < PlayerStatCount
    ensures |col| == |players|
  {
    seq(|players|, k requires 0 <= k < |players| => players[k].rolled[c])
  }

  /** The per-column sums (missing values skipped) over the selected players. */
  function SideSums(players: seq<PlayerLatest>): (sums: seq<real>)
    ensures |sums| == PlayerStatCount
    ensures forall c :: 0 <= c < PlayerStatCount ==> sums[c] == SumPresent(LatestCells(players, c))
  {
    seq(PlayerStatCount, c requires 0 <= c < PlayerStatCount => SumPresent(LatestCells(players, c)))
  }

  /** The sums are additive over the players: no player is a side's sums
      are all 0, one player contributes its present values, and the sums of
      two groups of players add up. */
  lemma SideSumsAdditive(a: seq<PlayerLatest>, b: seq<PlayerLatest>, p: PlayerLatest)
    ensures forall c :: 0 <= c < PlayerStatCount ==> SideSums([])[c] == 0.0
    ensures forall c :: 0 <= c < PlayerStatCount ==> SideSums([p])[c] == p.rolled[c].GetOr(0.0)
    ensures forall c :: 0 <= c < PlayerStatCount ==> SideSums(a + b)[c] == SideSums(a)[c] + SideSums(b)[c]
  {
    forall c | 0 <= c < PlayerStatCount
      ensures SideSums([p])[c] == p.rolled[c].GetOr(0.0)
      ensures SideSums(a + b)[c] == SideSums(a)[c] + SideSums(b)[c]
    {
      assert LatestCells([p], c) == [p.rolled[c]];
      assert LatestCells([p], c)[..0] == [];
      assert SumPresent(LatestCells([p], c)) == SumPresent([]) + p.rolled[c].GetOr(0.0);
      assert LatestCells(a + b, c) == LatestCells(a, c) + LatestCells(b, c);
      SumPresentAppend(LatestCells(a, c), LatestCells(b, c));
    }
  }

  lemma {:induction false} SumPresentAppend(xs: seq<Option<real>>, ys: seq<Option<real>>)
    ensures SumPresent(xs + ys) == SumPresent(xs) + SumPresent(ys)
    decreases |ys|
  {
    if ys == [] {
      assert xs + ys == xs;
    } else {
      var init := ys[..|ys| - 1];
      assert (xs + ys)[..|xs + ys| - 1] == xs + init;
      SumPresentAppend(xs, init);
    }
  }

  /** The aggregate of one game: the sums over each side's players, for a
      test of side membership. */
  function SideAggregate(frame: seq<RolledRow>, game: GameKey, side: string -> PlayerLatest -> bool): GameAgg
  {
    var latest := LatestRows(Relevant(frame, game.date));
    GameAgg(SideSums(Filter(latest, side(game.homeAbbr))),
            SideSums(Filter(latest, side(game.awayAbbr))))
  }

  /** The aggregate the script appends for one game, as written. */
  function GameAggregate(frame: seq<RolledRow>, game: GameKey): GameAgg
  {
    SideAggregate(frame, game, PlaysIn)
  }

  /** Only rows dated strictly before the game count: rows on or after its
      date, wherever they come, leave the aggregate unchanged. */
  lemma NoLaterRows(before: seq<RolledRow>, later: seq<RolledRow>, game: GameKey, side: string -> PlayerLatest -> bool)
    requires forall x :: x in later ==> x.gameDate >= game.date
    ensures SideAggregate(before + later, game, side) == SideAggregate(before, game, side)
  {
    FilterAppend(before, later, BeforeDate(game.date));
    FilterNone(later, BeforeDate(game.date));
    assert Relevant(before + later, game.date) == Relevant(before, game.date);
  }

  /** The per-game loop, as written: one aggregate per processed game, in
      order, over the frame with same-day duplicates dropped, a player
      counting for every side whose abbreviation occurs in their last
      MATCHUP. */
  method AggregateGames(frame: seq<RolledRow>, games: seq<GameKey>) returns (out: seq<GameWithPlayers>)
    ensures |out| == |games|
    ensures forall g :: 0 <= g < |games| ==>
      out[g] == GameWithPlayers(games[g], GameAggregate(KeepLast(frame), games[g]))
  {
    var latest := KeepLast(frame);
    out := [];
    var g := 0;
    while g < |games|
      invariant g <= |games| && |out| == g
      invariant forall h :: 0 <= h < g ==> out[h] == GameWithPlayers(games[h], GameAggregate(latest, games[h]))
    {
      out := out + [GameWithPlayers(games[g], GameAggregate(latest, games[g]))];
      g := g + 1;
    }
  }

  /** Steps 2 to 4 of the script, as written: nothing when no player row was
      fetched, otherwise the processed games with their player aggregates. */
  method AddPlayerStats(rows: seq<GameLogRow>, games: seq<GameKey>) returns (result: Option<seq<GameWithPlayers>>)
    ensures rows == [] <==> result.None?
    ensures result.Some? ==> |result.value| == |games|
    ensures result.Some? ==> forall g :: 0 <= g < |games| ==>
      result.value[g] == GameWithPlayers(games[g], GameAggregate(KeepLast(RollPlayerStats(rows)), games[g]))
  {
    if rows == [] {
      return None;
    }
    var sorted := SortBy(rows, DateKey);
    var cols := AddRollingColumns(sorted);
    var frame := Assemble(sorted, cols);
    var out := AggregateGames(frame, games);
    result := Some(out);
  }

  // ---------------------------------------------------------------------
  // Side membership

  /** A MATCHUP as the service writes it: own team, then " vs. " or " @ ",
      then the opponent. */
  function Matchup(own: string, home: bool, opp: string): string
  {
    own + (if home then " vs. " else " @ ") + opp
  }

  /** As written, a player of the away team whose last game was against the
      home team is summed on both sides. */
  lemma OpponentCountedTwice()
    ensures var p := PlayerLatest(7, Matchup("LAL", false, "BOS"), seq(9, _ => Some(20.0)));
      PlaysIn("BOS")(p) && PlaysIn("LAL")(p) &&
      SideSums(Filter([p], PlaysIn("BOS"))) == SideSums(Filter([p], PlaysIn("LAL")))
  {
    var m := Matchup("LAL", false, "BOS");
    assert m == "LAL @ BOS";
    assert OccursAt(m, "BOS", 6);
    OccursContains(m, "BOS", 6);
    assert OccursAt(m, "LAL", 0);
    OccursContains(m, "LAL", 0);
  }

  /** The player's own team: the text of MATCHUP before the first space. */
  function OwnTeam(matchup: string): string
  {
    match Find(matchup, " ", 0)
    case None => matchup
    case Some(i) => matchup[..i]
  }

  lemma OwnTeamOfMatchup(own: string, home: bool, opp: string)
    requires forall k :: 0 <= k < |own| ==> own[k] != ' '
    ensures OwnTeam(Matchup(own, home, opp)) == own
  {
    var m := Matchup(own, home, opp);
    assert OccursAt(m, " ", |own|);
    forall j | 0 <= j < |own|
      ensures !OccursAt(m, " ", j)
    {
      assert m[j] == own[j];
    }
    var f := Find(m, " ", 0);
    assert f == Some(|own|);
    assert m[..|own|] == own;
  }

  /** Corrected membership: a player belongs to the side named by the own
      team of their last MATCHUP. */
  function OwnSide(abbr: string): PlayerLatest -> bool
  {
    (p: PlayerLatest) => OwnTeam(p.matchup) == abbr
  }

  /** The aggregate the model appends for one game: the sums over the
      players whose own team is each side. */
  function GameAggregateOwnTeam(frame: seq<RolledRow>, game: GameKey): GameAgg
  {
    SideAggregate(frame, game, OwnSide)
  }

  /** With corrected membership no player is summed on both sides of a game
      between two different teams, and a player whose last MATCHUP names
      their own team as the home side is summed on the home side. */
  lemma OwnTeamSidesDisjoint(frame: seq<RolledRow>, game: GameKey)
    requires game.homeAbbr != game.awayAbbr
    ensures var latest := LatestRows(Relevant(frame, game.date));
      forall p :: p in Filter(latest, OwnSide(game.homeAbbr)) ==> p !in Filter(latest, OwnSide(game.awayAbbr))
    ensures var latest := LatestRows(Relevant(frame, game.date));
      (forall k :: 0 <= k < |game.homeAbbr| ==> game.homeAbbr[k] != ' ') ==>
      forall p, home, opp :: p in latest && p.matchup == Matchup(game.homeAbbr, home, opp) ==>
        p in Filter(latest, OwnSide(game.homeAbbr))
  {
    var latest := LatestRows(Relevant(frame, game.date));
    if forall k :: 0 <= k < |game.homeAbbr| ==> game.homeAbbr[k] != ' ' {
      forall p, home, opp | p in latest && p.matchup == Matchup(game.homeAbbr, home, opp)
        ensures p in Filter(latest, OwnSide(game.homeAbbr))
      {
        OwnTeamOfMatchup(game.homeAbbr, home, opp);
      }
    }
  }

  /** Steps 2 to 4 with the corrected membership: nothing when no player row
      was fetched, otherwise each processed game with the sums over the
      players of its two teams. */
  function AddPlayerStatsOwnTeam(rows: seq<GameLogRow>, games: seq<GameKey>): (r: Option<seq<GameWithPlayers>>)
    ensures rows == [] <==> r.None?
    ensures r.Some? ==> |r.value| == |games| && forall g :: 0 <= g < |games| ==>
      r.value[g] == GameWithPlayers(games[g], GameAggregateOwnTeam(KeepLast(RollPlayerStats(rows)), games[g]))
  {
    if rows == [] then None
    else
      var latest := KeepLast(RollPlayerStats(rows));
      Some(seq(|games|, g requires 0 <= g < |games| => GameWithPlayers(games[g], GameAggregateOwnTeam(latest, games[g]))))
  }

  /** The correction only removes players: a player counted for a side
      under the corrected membership is counted for it as written too. */
  lemma OwnSideWithinPlaysIn(players: seq<PlayerLatest>, abbr: string)
    ensures forall p :: p in Filter(players, OwnSide(abbr)) ==> p in Filter(players, PlaysIn(abbr))
  {
    forall p | p in Filter(players, OwnSide(abbr))
      ensures p in Filter(players, PlaysIn(abbr))
    {
      OwnTeamOccurs(p.matchup, abbr);
    }
  }

  /** A MATCHUP contains its own team. */
  lemma OwnTeamOccurs(m: string, abbr: string)
    requires OwnTeam(m) == abbr
    ensures Contains(m, abbr)
  {
    assert m[0..|abbr|] == abbr;
    OccursContains(m, abbr, 0);
  }
}
