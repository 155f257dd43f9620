/** The star-power and bench-power player features: each player's shifted
    10-game rolling means of six stats, and for every game the home-minus-away
    sums of those means over each side's best player, best five and players
    six to ten, ranked by rolling points. */
module PlayerFeatures {
  import opened Wrappers
  import opened Seqs
  import opened Rolling

  const Window: nat := 10
  /** PTS, REB, AST, STL, BLK, TOV, in that order. */
  const StatCount: nat := 6
  /** The column the players are ranked by: PTS. */
  const Pts: nat := 0

  type Stats = s: seq<real> | |s| == StatCount witness [0.0, 0.0, 0.0, 0.0, 0.0, 0.0]
  type Rolls = s: seq<Option<real>> | |s| == StatCount witness [None, None, None, None, None, None]

  /** One row of the raw player log. */
  datatype PlayerLog = PlayerLog(playerId: int, gameDate: int, team: string, stats: Stats)

  /** A log row with its player_<stat>_roll columns, missing while undefined. */
  datatype RolledLog = RolledLog(log: PlayerLog, rolls: Rolls)

  /** A log row that survived dropna: every rolling column present. */
  datatype PlayerLine = PlayerLine(playerId: int, gameDate: int, team: string, rolls: Stats)

  // ---------------------------------------------------------------------
  // Rolling columns and dropna

  function DateKey(r: PlayerLog): real
  {
    r.gameDate as real
  }

  function Players(rows: seq<PlayerLog>): (ids: seq<int>)
    ensures |ids| == |rows|
  {
    seq(|rows|, i requires 0 <= i < |rows| => rows[i].playerId)
  }

  function Column(rows: seq<PlayerLog>, c: nat): (vs: seq<real>)
    requires c < StatCount
    ensures |vs| == |rows|
  {
    seq(|rows|, i requires 0 <= i < |rows| => rows[i].stats[c])
  }

  /** The rolling column of stat c over a frame already in date order. */
  function RollColumn(sorted: seq<PlayerLog>, c: nat): (col: seq<Option<real>>)
    requires c < StatCount
    ensures |col| == |sorted|
  {
    GroupShiftedRolling(Players(sorted), Column(sorted, c), Window)
  }

  function RollColumns(sorted: seq<PlayerLog>): (cols: seq<seq<Option<real>>>)
    ensures |cols| == StatCount
    ensures forall c :: 0 <= c < StatCount ==> |cols[c]| == |sorted|
  {
    seq(StatCount, c requires 0 <= c < StatCount => RollColumn(sorted, c))
  }

  /** The frame with the rolling columns laid beside its rows. */
  function Assemble(sorted: seq<PlayerLog>, cols: seq<seq<Option<real>>>): (frame: seq<RolledLog>)
    requires |cols| == StatCount
    requires forall c :: 0 <= c < StatCount ==> |cols[c]| == |sorted|
    ensures |frame| == |sorted|
    ensures forall i :: 0 <= i < |frame| ==> frame[i].log == sorted[i]
  {
    seq(|sorted|, i requires 0 <= i < |sorted| =>
      RolledLog(sorted[i], seq(StatCount, c requires 0 <= c < StatCount => cols[c][i])))
  }

  /** The player log in date order with its six rolling columns. */
  function Rolled(rows: seq<PlayerLog>): (frame: seq<RolledLog>)
    ensures |frame| == |rows|
  {
    var sorted := SortBy(rows, DateKey);
    Assemble(sorted, RollColumns(sorted))
  }

  /** The number of rows of row i's player before row i in date order. */
  function Earlier(sorted: seq<PlayerLog>, i: nat): nat
    requires i < |sorted|
  {
    GroupSize(Players(sorted), sorted[i].playerId, i)
  }

  /** No look-ahead: the rolled frame holds the input rows in date order, and
      a row's rolling value for a stat is the mean of that player's 10
      previous values of the stat, missing while the player has fewer than 10
      earlier rows. */
  lemma RolledAt(rows: seq<PlayerLog>, i: nat, c: nat)
    requires i < |rows| && c < StatCount
    ensures var sorted := SortBy(rows, DateKey);
      var prior := GroupValues(Players(sorted), Column(sorted, c), sorted[i].playerId, i);
      SortedBy(sorted, DateKey) && multiset(sorted) == multiset(rows) &&
      |prior| == Earlier(sorted, i) &&
      Rolled(rows)[i].log == sorted[i] &&
      Rolled(rows)[i].rolls[c] == MeanOfLast(prior, Window)
  {
    var sorted := SortBy(rows, DateKey);
    var cols := RollColumns(sorted);
    var keys, vals := Players(sorted), Column(sorted, c);
    assert Rolled(rows) == Assemble(sorted, cols);
    assert Rolled(rows)[i].rolls[c] == cols[c][i] == GroupShiftedRolling(keys, vals, Window)[i];
    GroupShiftedRollingAt(keys, vals, Window, i, sorted[i].playerId);
    GroupValuesSize(keys, vals, sorted[i].playerId, i);
  }

  /** The loop that adds the six rolling columns one stat at a time. */
  method AddRollColumns(sorted: seq<PlayerLog>) returns (cols: seq<seq<Option<real>>>)
    ensures cols == RollColumns(sorted)
  {
    cols := [];
    for c := 0 to StatCount
      invariant |cols| == c
      invariant forall d :: 0 <= d < c ==> cols[d] == RollColumn(sorted, d)
    {
      cols := cols + [RollColumn(sorted, c)];
    }
  }

  predicate Complete(r: RolledLog)
  {
    AllDefined(r.rolls)
  }

  function CompleteMask(): RolledLog -> bool
  {
    (r: RolledLog) => Complete(r)
  }

  function LineOf(r: RolledLog): (l: PlayerLine)
    requires Complete(r)
  {
    PlayerLine(r.log.playerId, r.log.gameDate, r.log.team, Values(r.rolls))
  }

  /** dropna on the rolling columns: the complete rows, in order. */
  function Lines(frame: seq<RolledLog>): (lines: seq<PlayerLine>)
    ensures forall x :: x in lines <==> exists f :: f in frame && Complete(f) && x == LineOf(f)
  {
    var kept := Filter(frame, CompleteMask());
    var lines := seq(|kept|, i requires 0 <= i < |kept| => assert kept[i] in kept; LineOf(kept[i]));
    assert forall i :: 0 <= i < |kept| ==> kept[i] in kept && lines[i] == LineOf(kept[i]);
    assert forall f :: f in frame && Complete(f) ==> f in kept;
    lines
  }

  /** A row survives dropna exactly when its player has at least 10 earlier
      rows. */
  lemma KeptIff(rows: seq<PlayerLog>, i: nat)
    requires i < |rows|
    ensures Complete(Rolled(rows)[i]) <==> Earlier(SortBy(rows, DateKey), i) >= Window
  {
    var sorted := SortBy(rows, DateKey);
    forall c | 0 <= c < StatCount
      ensures Rolled(rows)[i].rolls[c].Some? <==> Earlier(sorted, i) >= Window
    {
      RolledAt(rows, i, c);
    }
    if Earlier(sorted, i) < Window {
      assert Rolled(rows)[i].rolls[Pts].None?;
    }
  }

  function LineDate(l: PlayerLine): real
  {
    l.gameDate as real
  }

  function FrameDate(r: RolledLog): real
  {
    r.log.gameDate as real
  }

  /** The surviving rows are still in date order. */
  lemma LinesInDateOrder(rows: seq<PlayerLog>)
    ensures SortedBy(Lines(Rolled(rows)), LineDate)
  {
    var frame := Rolled(rows);
    var sorted := SortBy(rows, DateKey);
    assert SortedBy(frame, FrameDate) by {
      forall i, j | 0 <= i < j < |frame|
        ensures FrameDate(frame[i]) <= FrameDate(frame[j])
      {
        assert frame[i].log == sorted[i] && frame[j].log == sorted[j];
      }
    }
    FilterSorted(frame, CompleteMask(), FrameDate);
  }

  // ---------------------------------------------------------------------
  // Each player's latest line before a game

  function Before(date: int): PlayerLine -> bool
  {
    (l: PlayerLine) => l.gameDate < date
  }

  function OfPlayer(pid: int): PlayerLine -> bool
  {
    (l: PlayerLine) => l.playerId == pid
  }

  /** The lines dated strictly before the game. */
  function Relevant(lines: seq<PlayerLine>, date: int): (r: seq<PlayerLine>)
    ensures forall x :: x in r <==> x in lines && x.gameDate < date
  {
    Filter(lines, Before(date))
  }

  function LineIds(lines: seq<PlayerLine>): (ids: seq<int>)
    ensures |ids| == |lines|
    ensures forall i :: 0 <= i < |lines| ==> ids[i] == lines[i].playerId
  {
    seq(|lines|, i requires 0 <= i < |lines| => lines[i].playerId)
  }

  lemma PresentPlayerHasLines(lines: seq<PlayerLine>, pid: int)
    requires pid in LineIds(lines)
    ensures |Filter(lines, OfPlayer(pid))| > 0
  {
    var i :| 0 <= i < |lines| && LineIds(lines)[i] == pid;
    assert lines[i] in Filter(lines, OfPlayer(pid));
  }

  /** The groupby-last row of a player: with every column present after
      dropna, the player's last line. */
  function LatestOf(relevant: seq<PlayerLine>, pid: int): (l: PlayerLine)
    requires pid in LineIds(relevant)
    ensures l in relevant && l.playerId == pid
  {
    PresentPlayerHasLines(relevant, pid);
    var mine := Filter(relevant, OfPlayer(pid));
    assert mine[|mine| - 1] in mine;
    mine[|mine| - 1]
  }

  lemma LatestOfIsLast(relevant: seq<PlayerLine>, pid: int)
    requires pid in LineIds(relevant)
    ensures var mine := Filter(relevant, OfPlayer(pid));
      |mine| > 0 && LatestOf(relevant, pid) == mine[|mine| - 1]
  {
    PresentPlayerHasLines(relevant, pid);
  }

  /** groupby('Player_ID').last(): exactly one line per player present. */
  function Latest(relevant: seq<PlayerLine>): (latest: seq<PlayerLine>)
    ensures Distinct(LineIds(latest))
    ensures Elems(LineIds(latest)) == Elems(LineIds(relevant))
    ensures forall k :: 0 <= k < |latest| ==>
      latest[k].playerId in LineIds(relevant) && latest[k] == LatestOf(relevant, latest[k].playerId)
  {
    var ids := FirstSeen({}, LineIds(relevant));
    FirstSeenExact({}, LineIds(relevant));
    var latest := seq(|ids|, k requires 0 <= k < |ids| =>
      assert ids[k] in Elems(ids);
      LatestOf(relevant, ids[k]));
    assert forall k :: 0 <= k < |ids| ==> ids[k] in Elems(ids) && latest[k].playerId == ids[k];
    assert LineIds(latest) == ids;
    latest
  }

  /** The line the features use for a player is that player's most recent
      line dated strictly before the game. */
  lemma LatestIsMostRecent(rows: seq<PlayerLog>, date: int, pid: int)
    requires exists x :: x in Lines(Rolled(rows)) && x.playerId == pid && x.gameDate < date
    ensures var lines := Lines(Rolled(rows));
      var relevant := Relevant(lines, date);
      pid in LineIds(relevant) &&
      LatestOf(relevant, pid) in lines && LatestOf(relevant, pid).gameDate < date &&
      forall x :: x in lines && x.playerId == pid && x.gameDate < date ==>
        x.gameDate <= LatestOf(relevant, pid).gameDate
  {
    LinesInDateOrder(rows);
    LatestInDateOrder(Lines(Rolled(rows)), date, pid);
  }

  /** The same for any lines in date order. */
  lemma LatestInDateOrder(lines: seq<PlayerLine>, date: int, pid: int)
    requires SortedBy(lines, LineDate)
    requires exists x :: x in lines && x.playerId == pid && x.gameDate < date
    ensures var relevant := Relevant(lines, date);
      pid in LineIds(relevant) &&
      LatestOf(relevant, pid) in lines && LatestOf(relevant, pid).gameDate < date &&
      forall x :: x in lines && x.playerId == pid && x.gameDate < date ==>
        x.gameDate <= LatestOf(relevant, pid).gameDate
  {
    PresentBefore(lines, date, pid);
    forall x | x in lines && x.playerId == pid && x.gameDate < date
      ensures x.gameDate <= LatestOf(Relevant(lines, date), pid).gameDate
    {
      NoLaterLine(lines, date, pid, x);
    }
  }

  lemma NoLaterLine(lines: seq<PlayerLine>, date: int, pid: int, x: PlayerLine)
    requires SortedBy(lines, LineDate)
    requires x in lines && x.playerId == pid && x.gameDate < date
    requires pid in LineIds(Relevant(lines, date))
    ensures x.gameDate <= LatestOf(Relevant(lines, date), pid).gameDate
  {
    var relevant := Relevant(lines, date);
    FilterSorted(lines, Before(date), LineDate);
    FilterSorted(relevant, OfPlayer(pid), LineDate);
    var mine := Filter(relevant, OfPlayer(pid));
    LatestOfIsLast(relevant, pid);
    InOwnRelevant(lines, date, pid, x);
    LastIsLatest(mine, x);
  }

  lemma PresentBefore(lines: seq<PlayerLine>, date: int, pid: int)
    requires exists x :: x in lines && x.playerId == pid && x.gameDate < date
    ensures var relevant := Relevant(lines, date);
      pid in LineIds(relevant) &&
      LatestOf(relevant, pid) in lines && LatestOf(relevant, pid).gameDate < date
  {
    var relevant := Relevant(lines, date);
    var w :| w in lines && w.playerId == pid && w.gameDate < date;
    assert w in relevant;
    var i :| 0 <= i < |relevant| && relevant[i] == w;
    assert LineIds(relevant)[i] == pid;
    assert LatestOf(relevant, pid) in relevant;
  }

  lemma InOwnRelevant(lines: seq<PlayerLine>, date: int, pid: int, x: PlayerLine)
    requires x in lines && x.playerId == pid && x.gameDate < date
    ensures x in Filter(Relevant(lines, date), OfPlayer(pid))
  {
    assert OfPlayer(pid)(x);
  }

  lemma LastIsLatest(lines: seq<PlayerLine>, x: PlayerLine)
    requires SortedBy(lines, LineDate) && x in lines
    ensures x.gameDate <= lines[|lines| - 1].gameDate
  {
    var j :| 0 <= j < |lines| && lines[j] == x;
    if j < |lines| - 1 {
      assert LineDate(lines[j]) <= LineDate(lines[|lines| - 1]);
    }
  }

  // ---------------------------------------------------------------------
  // Ranking and the star and bench sums

  function OnTeam(abbr: string): PlayerLine -> bool
  {
    (l: PlayerLine) => l.team == abbr
  }

  function NegPts(l: PlayerLine): real
  {
    -l.rolls[Pts]
  }

  /** A side's players: the latest lines whose TEAM_ABBREVIATION equals the
      side's abbreviation, sorted by rolling points, highest first. */
  function Ranked(latest: seq<PlayerLine>, abbr: string): (r: seq<PlayerLine>)
    ensures multiset(r) == multiset(Filter(latest, OnTeam(abbr)))
    ensures SortedBy(r, NegPts)
  {
    SortBy(Filter(latest, OnTeam(abbr)), NegPts)
  }

  /** The ranked side holds exactly the side's players (a team test by
      equality), highest rolling points first. */
  lemma RankedSide(latest: seq<PlayerLine>, abbr: string)
    ensures var r := Ranked(latest, abbr);
      (forall x :: x in r <==> x in latest && x.team == abbr) &&
      forall i, j :: 0 <= i < j < |r| ==> r[i].rolls[Pts] >= r[j].rolls[Pts]
  {
    var r := Ranked(latest, abbr);
    assert forall x :: x in r <==> x in multiset(r);
    forall i, j | 0 <= i < j < |r|
      ensures r[i].rolls[Pts] >= r[j].rolls[Pts]
    {
      assert NegPts(r[i]) <= NegPts(r[j]);
    }
  }

  function StatOf(players: seq<PlayerLine>, c: nat): (col: seq<real>)
    requires c < StatCount
    ensures |col| == |players|
    ensures forall k :: 0 <= k < |players| ==> col[k] == players[k].rolls[c]
  {
    seq(|players|, k requires 0 <= k < |players| => players[k].rolls[c])
  }

  /** head(1): the best player's value (0 when the side has no player). */
  function Top1(ranked: seq<PlayerLine>, c: nat): real
    requires c < StatCount
  {
    Sum(StatOf(Head(ranked, 1), c))
  }

  /** head(5): the sum over the best five. */
  function Top5(ranked: seq<PlayerLine>, c: nat): real
    requires c < StatCount
  {
    Sum(StatOf(Head(ranked, 5), c))
  }

  /** iloc[5:10]: the sum over players six to ten. */
  function Bench(ranked: seq<PlayerLine>, c: nat): real
    requires c < StatCount
  {
    Sum(StatOf(Slice(ranked, 5, 10), c))
  }

  lemma StatOfAppend(a: seq<PlayerLine>, b: seq<PlayerLine>, c: nat)
    requires c < StatCount
    ensures StatOf(a + b, c) == StatOf(a, c) + StatOf(b, c)
  {
  }

  lemma SumOne(s: seq<real>)
    requires |s| == 1
    ensures Sum(s) == s[0]
  {
    assert s[..0] == [];
  }

  /** The star sum is the leader's value, and for points it is the side's
      highest; an empty side sums to 0. */
  lemma StarIsLeader(ranked: seq<PlayerLine>, c: nat)
    requires c < StatCount
    requires forall i, j :: 0 <= i < j < |ranked| ==> ranked[i].rolls[Pts] >= ranked[j].rolls[Pts]
    ensures |ranked| > 0 ==> Top1(ranked, c) == ranked[0].rolls[c]
    ensures |ranked| > 0 ==> forall x :: x in ranked ==> x.rolls[Pts] <= Top1(ranked, Pts)
    ensures |ranked| == 0 ==> Top1(ranked, c) == 0.0 && Top5(ranked, c) == 0.0
  {
    if |ranked| > 0 {
      SumOne(StatOf(Head(ranked, 1), c));
      SumOne(StatOf(Head(ranked, 1), Pts));
      forall x | x in ranked
        ensures x.rolls[Pts] <= ranked[0].rolls[Pts]
      {
        var i :| 0 <= i < |ranked| && ranked[i] == x;
      }
    }
  }

  /** The best five and players six to ten together are the best ten, and a
      side of at most five players has a zero bench sum. */
  lemma StartersAndBench(ranked: seq<PlayerLine>, c: nat)
    requires c < StatCount
    ensures Top5(ranked, c) + Bench(ranked, c) == Sum(StatOf(Head(ranked, 10), c))
    ensures |ranked| <= 5 ==> Bench(ranked, c) == 0.0
  {
    assert Head(ranked, 10) == Head(ranked, 5) + Slice(ranked, 5, 10);
    StatOfAppend(Head(ranked, 5), Slice(ranked, 5, 10), c);
    SumAppend(StatOf(Head(ranked, 5), c), StatOf(Slice(ranked, 5, 10), c));
  }

  /** The eighteen features of one game: per stat, the home-minus-away
      differences of the top-1, top-5 and bench sums. */
  datatype GameFeatures = GameFeatures(gameId: int, top1: Stats, top5: Stats, bench: Stats)

  function Differences(home: seq<PlayerLine>, away: seq<PlayerLine>): (d: (Stats, Stats, Stats))
    ensures forall c :: 0 <= c < StatCount ==>
      d.0[c] == Top1(home, c) - Top1(away, c) &&
      d.1[c] == Top5(home, c) - Top5(away, c) &&
      d.2[c] == Bench(home, c) - Bench(away, c)
  {
    (seq(StatCount, c requires 0 <= c < StatCount => Top1(home, c) - Top1(away, c)),
     seq(StatCount, c requires 0 <= c < StatCount => Top5(home, c) - Top5(away, c)),
     seq(StatCount, c requires 0 <= c < StatCount => Bench(home, c) - Bench(away, c)))
  }

  /** The game_dict of one game between `home` and `away` on `date`. */
  function GameFeaturesOf(lines: seq<PlayerLine>, gameId: int, date: int, home: string, away: string): (f: GameFeatures)
    ensures f.gameId == gameId
  {
    var latest := Latest(Relevant(lines, date));
    var d := Differences(Ranked(latest, home), Ranked(latest, away));
    GameFeatures(gameId, d.0, d.1, d.2)
  }

  /** Each feature is the home side's top-1, top-5 or bench sum minus the
      away side's, both ranked over the players' latest lines before the
      game's date. */
  lemma GameFeaturesOfAt(lines: seq<PlayerLine>, gameId: int, date: int, home: string, away: string, c: nat)
    requires c < StatCount
    ensures var f := GameFeaturesOf(lines, gameId, date, home, away);
      var latest := Latest(Relevant(lines, date));
      var h := Ranked(latest, home);
      var a := Ranked(latest, away);
      f.top1[c] == Top1(h, c) - Top1(a, c) &&
      f.top5[c] == Top5(h, c) - Top5(a, c) &&
      f.bench[c] == Bench(h, c) - Bench(a, c)
  {
  }

  /** Swapping the two sides negates every feature. */
  lemma FeaturesAntisymmetric(lines: seq<PlayerLine>, gameId: int, date: int, home: string, away: string)
    ensures var f := GameFeaturesOf(lines, gameId, date, home, away);
      var g := GameFeaturesOf(lines, gameId, date, away, home);
      forall c :: 0 <= c < StatCount ==>
        g.top1[c] == -f.top1[c] && g.top5[c] == -f.top5[c] && g.bench[c] == -f.bench[c]
  {
  }

  // ---------------------------------------------------------------------
  // The games loop

  /** One row of the raw games file, from one team's side. */
  datatype GameRow = GameRow(gameId: int, gameDate: int, matchup: string, plusMinus: real)

  /** The three columns the loop reads. */
  datatype GameKey = GameKey(gameId: int, gameDate: int, matchup: string)

  function KeyOf(g: GameRow): GameKey
  {
    GameKey(g.gameId, g.gameDate, g.matchup)
  }

  /** drop_duplicates on (GAME_ID, GAME_DATE, MATCHUP): each distinct key
      once, at its first occurrence. */
  function LoopKeys(games: seq<GameRow>): (keys: seq<GameKey>)
    ensures Distinct(keys)
    ensures forall k :: k in keys <==> exists i :: 0 <= i < |games| && KeyOf(games[i]) == k
  {
    var all := seq(|games|, i requires 0 <= i < |games| => KeyOf(games[i]));
    FirstSeenExact({}, all);
    var keys := FirstSeen({}, all);
    assert forall i :: 0 <= i < |games| ==> all[i] == KeyOf(games[i]);
    assert forall k :: k in keys <==> k in Elems(keys);
    assert forall k :: k in all <==> k in Elems(all);
    keys
  }

  const IndexMessage: string := "list index out of range"

  /** Home and away abbreviations: pieces 0 and 1 of matchup.split(' vs. '),
      with an IndexError when there is no second piece. */
  function ParseMatchup(m: string): (r: Option<(string, string)>)
    ensures r.None? <==> !Contains(m, " vs. ")
    ensures r.Some? ==> Find(m, " vs. ", 0).Some? && r.value.0 == m[..Find(m, " vs. ", 0).value]
  {
    var parts := Split(m, " vs. ");
    if |parts| < 2 then None
    else Some((parts[0], parts[1]))
  }

  /** The away abbreviation is the text after the first " vs. ", up to the
      next one if there is another. */
  lemma ParseMatchupAway(m: string)
    requires ParseMatchup(m).Some?
    ensures var after := Find(m, " vs. ", 0).value + 5;
      after <= |m| &&
      ParseMatchup(m).value.1 == match Find(m, " vs. ", after)
                                 case None => m[after..]
                                 case Some(j) => m[after..j]
  {
    var i := Find(m, " vs. ", 0).value;
    assert Split(m, " vs. ") == [m[..i]] + SplitFrom(m, " vs. ", i + 5);
  }

  /** The features of a game whose MATCHUP names both sides. */
  function FeaturesAt(lines: seq<PlayerLine>, key: GameKey): (f: GameFeatures)
    requires Contains(key.matchup, " vs. ")
    ensures f.gameId == key.gameId
  {
    var names := ParseMatchup(key.matchup).value;
    GameFeaturesOf(lines, key.gameId, key.gameDate, names.0, names.1)
  }

  /** The loop over the distinct game keys: it stops with an IndexError at
      the first MATCHUP without " vs. ", and otherwise appends one feature
      row per key, in order. */
  function AllFeatures(lines: seq<PlayerLine>, keys: seq<GameKey>): (r: Outcome<seq<GameFeatures>>)
    ensures r.Raised? <==> exists k :: 0 <= k < |keys| && !Contains(keys[k].matchup, " vs. ")
    ensures r.Raised? ==> r.reason == IndexMessage
    ensures r.Done? ==> |r.value| == |keys| && forall k :: 0 <= k < |keys| ==> r.value[k].gameId == keys[k].gameId
  {
    if exists k :: 0 <= k < |keys| && !Contains(keys[k].matchup, " vs. ") then Raised(IndexMessage)
    else Done(seq(|keys|, k requires 0 <= k < |keys| => FeaturesAt(lines, keys[k])))
  }

  /** The for-loop that fills game_features. */
  method BuildGameFeatures(lines: seq<PlayerLine>, keys: seq<GameKey>) returns (r: Outcome<seq<GameFeatures>>)
    ensures r == AllFeatures(lines, keys)
  {
    var features: seq<GameFeatures> := [];
    for i := 0 to |keys|
      invariant |features| == i
      invariant forall k :: 0 <= k < i ==> Contains(keys[k].matchup, " vs. ")
      invariant forall k :: 0 <= k < i ==> features[k] == FeaturesAt(lines, keys[k])
    {
      var names := ParseMatchup(keys[i].matchup);
      if names.None? {
        assert !Contains(keys[i].matchup, " vs. ");
        return Raised(IndexMessage);
      }
      FeaturesStep(lines, keys, features, i);
      features := features + [FeaturesAt(lines, keys[i])];
    }
    assert features == seq(|keys|, k requires 0 <= k < |keys| => FeaturesAt(lines, keys[k]));
    return Done(features);
  }

  lemma FeaturesStep(lines: seq<PlayerLine>, keys: seq<GameKey>, features: seq<GameFeatures>, i: nat)
    requires i < |keys| && |features| == i && Contains(keys[i].matchup, " vs. ")
    requires forall k :: 0 <= k < i ==> Contains(keys[k].matchup, " vs. ") && features[k] == FeaturesAt(lines, keys[k])
    ensures var next := features + [FeaturesAt(lines, keys[i])];
      forall k :: 0 <= k <= i ==> Contains(keys[k].matchup, " vs. ") && next[k] == FeaturesAt(lines, keys[k])
  {
  }

  // ---------------------------------------------------------------------
  // The point differential and the whole script

  /** A row of the output file: the game's features and its
      point_differential. */
  datatype FeatureRow = FeatureRow(features: GameFeatures, pointDiff: real)

  function HomeMask(): GameRow -> bool
  {
    (g: GameRow) => !Contains(g.matchup, "@")
  }

  /** The rows without '@' in MATCHUP: the home side of each game. */
  function HomeRows(games: seq<GameRow>): (home: seq<GameRow>)
    ensures forall g :: g in home <==> g in games && !Contains(g.matchup, "@")
  {
    Filter(games, HomeMask())
  }

  /** The home rows sharing one feature row's game id, in order. */
  function DiffsOf(f: GameFeatures, home: seq<GameRow>): (r: seq<FeatureRow>)
    ensures forall x :: x in r <==> exists h :: h in home && h.gameId == f.gameId && x == FeatureRow(f, h.plusMinus)
  {
    if home == [] then []
    else
      var h := home[|home| - 1];
      assert home == home[..|home| - 1] + [h];
      var rest := DiffsOf(f, home[..|home| - 1]);
      if h.gameId == f.gameId then rest + [FeatureRow(f, h.plusMinus)] else rest
  }

  /** pd.merge(features, home rows, on GAME_ID): an inner join in feature
      order. */
  function MergePointDiff(fs: seq<GameFeatures>, home: seq<GameRow>): (r: seq<FeatureRow>)
    ensures forall x :: x in r <==> exists f, h :: f in fs && h in home && h.gameId == f.gameId && x == FeatureRow(f, h.plusMinus)
  {
    if fs == [] then []
    else
      var f := fs[|fs| - 1];
      assert fs == fs[..|fs| - 1] + [f];
      MergePointDiff(fs[..|fs| - 1], home) + DiffsOf(f, home)
  }

  /** pd.DataFrame([]) has no GAME_ID column, so merging it raises KeyError. */
  const KeyMessage: string := "'GAME_ID'"

  /** Steps 3 to 5 over the given loop keys. */
  function Pipeline(lines: seq<PlayerLine>, keys: seq<GameKey>, games: seq<GameRow>): (r: Outcome<seq<FeatureRow>>)
    ensures r.Raised? <==> AllFeatures(lines, keys).Raised? || keys == []
    ensures r.Done? ==> forall x :: x in r.value ==> x.features in AllFeatures(lines, keys).value
    ensures r.Done? ==> forall x :: x in r.value ==>
      exists h :: h in games && !Contains(h.matchup, "@") && h.gameId == x.features.gameId && x.pointDiff == h.plusMinus
  {
    match AllFeatures(lines, keys)
    case Raised(e) => Raised(e)
    case Done(fs) => if fs == [] then Raised(KeyMessage) else Done(MergePointDiff(fs, HomeRows(games)))
  }

  /** feature_engineering_nba_players_v2.py as written: the loop runs over
      every distinct (GAME_ID, GAME_DATE, MATCHUP). */
  function PlayerFeaturesAsWritten(rows: seq<PlayerLog>, games: seq<GameRow>): Outcome<seq<FeatureRow>>
  {
    Pipeline(Lines(Rolled(rows)), LoopKeys(games), games)
  }

  /** The whole script, as a method over the computed frames, with the loop
      over the home-side keys. */
  method BuildPlayerFeatures(rows: seq<PlayerLog>, games: seq<GameRow>) returns (r: Outcome<seq<FeatureRow>>)
    ensures r == PlayerFeaturesCorrected(rows, games)
  {
    var sorted := SortBy(rows, DateKey);
    var cols := AddRollColumns(sorted);
    var lines := Lines(Assemble(sorted, cols));
    var fs := BuildGameFeatures(lines, HomeKeys(games));
    if fs.Raised? {
      return Raised(fs.reason);
    }
    if fs.value == [] {
      return Raised(KeyMessage);
    }
    return Done(MergePointDiff(fs.value, HomeRows(games)));
  }

  // ---------------------------------------------------------------------
  // The away rows

  /** No " vs. " can occur in a text without the letter 'v'. */
  lemma NoVsWithoutV(m: string)
    requires forall k :: 0 <= k < |m| ==> m[k] != 'v'
    ensures !Contains(m, " vs. ")
  {
    forall j: nat | j + 5 <= |m|
      ensures !OccursAt(m, " vs. ", j)
    {
      assert m[j..j + 5][1] == m[j + 1] != 'v';
    }
  }

  /** As written, one games row whose MATCHUP has no " vs. " (every away row,
      "LAL @ BOS") stops the whole run with an IndexError. */
  lemma AwayRowAborts(rows: seq<PlayerLog>, games: seq<GameRow>, i: nat)
    requires i < |games| && !Contains(games[i].matchup, " vs. ")
    ensures PlayerFeaturesAsWritten(rows, games) == Raised(IndexMessage)
  {
    var keys := LoopKeys(games);
    assert KeyOf(games[i]) in keys;
    var k :| 0 <= k < |keys| && keys[k] == KeyOf(games[i]);
  }

  /** A games file holding both rows of one game, as the service returns it,
      produces no output. */
  lemma AsWrittenAbortsOnBothSides(rows: seq<PlayerLog>)
    ensures PlayerFeaturesAsWritten(rows, [GameRow(1, 100, "BOS vs. LAL", 7.0), GameRow(1, 100, "LAL @ BOS", -7.0)])
      == Raised(IndexMessage)
  {
    var away := "LAL @ BOS";
    assert forall k :: 0 <= k < |away| ==> away[k] != 'v';
    NoVsWithoutV(away);
    AwayRowAborts(rows, [GameRow(1, 100, "BOS vs. LAL", 7.0), GameRow(1, 100, "LAL @ BOS", -7.0)], 1);
  }

  function HasVs(): GameKey -> bool
  {
    (k: GameKey) => Contains(k.matchup, " vs. ")
  }

  /** Corrected: the loop runs over the home-side keys only, those whose
      MATCHUP reads "home vs. away". */
  function HomeKeys(games: seq<GameRow>): (keys: seq<GameKey>)
    ensures forall k :: k in keys <==> Contains(k.matchup, " vs. ") && exists i :: 0 <= i < |games| && KeyOf(games[i]) == k
  {
    Filter(LoopKeys(games), HasVs())
  }

  function PlayerFeaturesCorrected(rows: seq<PlayerLog>, games: seq<GameRow>): Outcome<seq<FeatureRow>>
  {
    Pipeline(Lines(Rolled(rows)), HomeKeys(games), games)
  }

  /** Corrected, the run never meets the IndexError: it fails only when the
      file has no home row at all (merging an empty frame). */
  lemma CorrectedNeverAborts(rows: seq<PlayerLog>, games: seq<GameRow>)
    ensures AllFeatures(Lines(Rolled(rows)), HomeKeys(games)).Done?
    ensures PlayerFeaturesCorrected(rows, games).Raised? <==>
      forall i :: 0 <= i < |games| ==> !Contains(games[i].matchup, " vs. ")
  {
    var lines := Lines(Rolled(rows));
    HomeKeysFeatures(lines, games);
    assert PlayerFeaturesCorrected(rows, games) == Pipeline(lines, HomeKeys(games), games);
  }

  lemma HomeKeysFeatures(lines: seq<PlayerLine>, games: seq<GameRow>)
    ensures AllFeatures(lines, HomeKeys(games)).Done?
    ensures HomeKeys(games) == [] <==> forall i :: 0 <= i < |games| ==> !Contains(games[i].matchup, " vs. ")
  {
    HomeKeysHaveVs(games);
    HomeKeysEmpty(games);
  }

  lemma HomeKeysHaveVs(games: seq<GameRow>)
    ensures forall k :: 0 <= k < |HomeKeys(games)| ==> Contains(HomeKeys(games)[k].matchup, " vs. ")
  {
    var keys := HomeKeys(games);
    assert forall k :: 0 <= k < |keys| ==> keys[k] in keys;
  }

  lemma HomeKeysEmpty(games: seq<GameRow>)
    ensures HomeKeys(games) == [] <==> forall i :: 0 <= i < |games| ==> !Contains(games[i].matchup, " vs. ")
  {
    var keys := HomeKeys(games);
    if exists i :: 0 <= i < |games| && Contains(games[i].matchup, " vs. ") {
      var i :| 0 <= i < |games| && Contains(games[i].matchup, " vs. ");
      assert KeyOf(games[i]) in keys;
    }
    if keys != [] {
      assert keys[0] in keys;
      var i :| 0 <= i < |games| && KeyOf(games[i]) == keys[0];
      assert Contains(games[i].matchup, " vs. ");
    }
  }

  /** Corrected, each output row holds the features of a home row's game,
      computed for the two teams its MATCHUP names, with that game's home
      point differential. */
  lemma CorrectedRowsAreHomeGames(rows: seq<PlayerLog>, games: seq<GameRow>)
    ensures var r := PlayerFeaturesCorrected(rows, games);
      r.Done? ==> forall x :: x in r.value ==>
        exists g :: g in games && Contains(g.matchup, " vs. ") && x.features == FeaturesAt(Lines(Rolled(rows)), KeyOf(g))
    ensures var r := PlayerFeaturesCorrected(rows, games);
      r.Done? ==> forall x :: x in r.value ==>
        exists h :: h in games && !Contains(h.matchup, "@") && h.gameId == x.features.gameId && x.pointDiff == h.plusMinus
  {
    var lines := Lines(Rolled(rows));
    var keys := HomeKeys(games);
    var r := PlayerFeaturesCorrected(rows, games);
    if r.Done? {
      var fs := AllFeatures(lines, keys).value;
      forall x | x in r.value
        ensures exists g :: g in games && Contains(g.matchup, " vs. ") && x.features == FeaturesAt(lines, KeyOf(g))
      {
        var k :| 0 <= k < |fs| && fs[k] == x.features;
        assert keys[k] in keys;
        var i :| 0 <= i < |games| && KeyOf(games[i]) == keys[k];
        assert games[i] in games;
      }
    }
  }
}
