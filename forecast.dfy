/** The daily forecaster: for each scheduled game it looks up both teams,
    takes each team's latest exponentially weighted stats, asks the model for
    the home point differential, reads the Vegas spread typed by the user and
    records a recommendation. The schedule, the answers typed at the prompt,
    Python's float() and the trained model are inputs of the model. */
module Forecast {
  import opened Wrappers
  import opened Seqs
  import opened Rolling

  /** stats_to_average: FGM, FGA, FG_PCT, FG3M, FG3A, FG3_PCT, FTM, FTA,
      FT_PCT, OREB, DREB, REB, AST, STL, BLK, TOV, PF, PTS. */
  const StatCount: nat := 18

  /** The default smoothing factor of calculate_latest_ewma. */
  const Alpha: real := 0.1

  type TeamStats = s: seq<real> | |s| == StatCount witness seq(18, _ => 0.0)

  /** A row of the raw historical games file: one team in one game. */
  datatype HistoryRow = HistoryRow(teamId: int, abbr: string, gameDate: int, stats: TeamStats)

  function OfTeam(abbr: string): HistoryRow -> bool
  {
    (r: HistoryRow) => r.abbr == abbr
  }

  function GameDateKey(): HistoryRow -> real
  {
    (r: HistoryRow) => r.gameDate as real
  }

  /** The team's rows in date order. */
  function TeamRows(history: seq<HistoryRow>, abbr: string): (rows: seq<HistoryRow>)
    ensures forall r :: r in rows <==> r in history && r.abbr == abbr
    ensures SortedBy(rows, GameDateKey())
  {
    var team := Filter(history, OfTeam(abbr));
    var rows := SortBy(team, GameDateKey());
    assert forall r :: r in rows <==> r in team by {
      forall r ensures r in rows <==> r in team {
        assert r in rows <==> r in multiset(rows);
        assert r in team <==> r in multiset(team);
      }
    }
    rows
  }

  function StatColumn(rows: seq<HistoryRow>, c: nat): (col: seq<real>)
    requires c < StatCount
    ensures |col| == |rows|
    ensures forall i :: 0 <= i < |rows| ==> col[i] == rows[i].stats[c]
  {
    seq(|rows|, i requires 0 <= i < |rows| => rows[i].stats[c])
  }

  /** calculate_latest_ewma: no value for a team without rows; otherwise the
      last entry of each stat's exponentially weighted mean (adjust=False)
      over the team's games in date order. */
  function LatestEwma(history: seq<HistoryRow>, abbr: string): (r: Option<TeamStats>)
    ensures r.None? <==> forall h :: h in history ==> h.abbr != abbr
  {
    var rows := TeamRows(history, abbr);
    if rows == [] then None
    else
      assert rows[0] in rows;
      Some(LastSmoothed(rows))
  }

  /** The last entry of stat c's smoothed column. */
  function Smoothed(rows: seq<HistoryRow>, c: nat): real
    requires rows != [] && c < StatCount
  {
    Ewma(StatColumn(rows, c), Alpha)[|rows| - 1]
  }

  /** The last row of the smoothed columns. */
  function LastSmoothed(rows: seq<HistoryRow>): (v: TeamStats)
    requires rows != []
    ensures forall c :: 0 <= c < StatCount ==> v[c] == Smoothed(rows, c)
  {
    seq(StatCount, c requires 0 <= c < StatCount => Smoothed(rows, c))
  }

  /** The last entry of the exponentially weighted mean of xs, computed by
      the recurrence. */
  method LastEwma(xs: seq<real>, alpha: real) returns (e: real)
    requires |xs| > 0
    ensures e == Ewma(xs, alpha)[|xs| - 1]
  {
    e := xs[0];
    var i := 1;
    assert xs[..1] == [xs[0]];
    while i < |xs|
      invariant 1 <= i <= |xs|
      invariant e == Ewma(xs[..i], alpha)[i - 1]
    {
      assert xs[..i + 1][..i] == xs[..i];
      e := Mix(e, xs[i], alpha);
      i := i + 1;
    }
    assert xs[..i] == xs;
  }

  /** The function as the script runs it: select the team's rows, sort them
      by date, add one smoothed column per stat and keep the last row. */
  method CalculateLatestEwma(history: seq<HistoryRow>, abbr: string) returns (r: Option<TeamStats>)
    ensures r == LatestEwma(history, abbr)
  {
    var rows := TeamRows(history, abbr);
    if rows == [] {
      return None;
    }
    var latest := LastRowOfColumns(rows);
    return Some(latest);
  }

  /** The loop that adds the smoothed column of each stat, read at the last
      row. */
  method LastRowOfColumns(rows: seq<HistoryRow>) returns (latest: TeamStats)
    requires rows != []
    ensures latest == LastSmoothed(rows)
  {
    var acc: seq<real> := [];
    for c := 0 to StatCount
      invariant |acc| == c
      invariant forall k :: 0 <= k < c ==> acc[k] == Smoothed(rows, k)
    {
      var e := LastEwma(StatColumn(rows, c), Alpha);
      acc := acc + [e];
    }
    latest := acc;
    assert latest == LastSmoothed(rows);
  }

  /** Each smoothed stat lies within the range of the team's own values of
      that stat. */
  lemma LatestEwmaBounds(history: seq<HistoryRow>, abbr: string, c: nat, lo: real, hi: real)
    requires c < StatCount
    requires forall h :: h in history && h.abbr == abbr ==> lo <= h.stats[c] <= hi
    ensures LatestEwma(history, abbr).Some? ==> lo <= LatestEwma(history, abbr).value[c] <= hi
  {
    var rows := TeamRows(history, abbr);
    if rows != [] {
      var col := StatColumn(rows, c);
      assert forall i :: 0 <= i < |col| ==> lo <= col[i] <= hi by {
        forall i | 0 <= i < |col| ensures lo <= col[i] <= hi {
          assert rows[i] in rows;
        }
      }
      EwmaBounds(col, Alpha, lo, hi);
    }
  }

  /** With a single game on record the smoothed stats are that game's stats;
      with more, the last value follows the recurrence from the one before. */
  lemma LatestEwmaRecurrence(history: seq<HistoryRow>, abbr: string, c: nat)
    requires c < StatCount
    ensures var rows := TeamRows(history, abbr);
      |rows| == 1 ==> LatestEwma(history, abbr) == Some(rows[0].stats)
    ensures var rows := TeamRows(history, abbr);
      |rows| > 1 ==>
        LatestEwma(history, abbr).value[c] ==
        Mix(Ewma(StatColumn(rows, c), Alpha)[|rows| - 2], rows[|rows| - 1].stats[c], Alpha)
  {
    var rows := TeamRows(history, abbr);
    if |rows| > 1 {
      EwmaRecurrence(StatColumn(rows, c), Alpha, |rows| - 1);
    } else if |rows| == 1 {
      assert forall k :: 0 <= k < StatCount ==> Ewma(StatColumn(rows, k), Alpha) == [rows[0].stats[k]];
      assert LastSmoothed(rows) == rows[0].stats;
    }
  }

  /** Rows of other teams do not affect a team's smoothed stats. */
  lemma OtherTeamsIgnored(history: seq<HistoryRow>, others: seq<HistoryRow>, abbr: string)
    requires forall h :: h in others ==> h.abbr != abbr
    ensures LatestEwma(history + others, abbr) == LatestEwma(history, abbr)
  {
    FilterAppend(history, others, OfTeam(abbr));
    FilterNone(others, OfTeam(abbr));
    assert Filter(history + others, OfTeam(abbr)) == Filter(history, OfTeam(abbr));
  }

  // ---------------------------------------------------------------------
  // Team ids

  /** Builds a dictionary from (key, value) pairs, a later pair overwriting
      an earlier one with the same key. */
  function ToDict(pairs: seq<(int, string)>): (m: map<int, string>)
    ensures forall id :: id in m <==> exists i :: 0 <= i < |pairs| && pairs[i].0 == id
  {
    if pairs == [] then map[]
    else
      var last := pairs[|pairs| - 1];
      var m := ToDict(pairs[..|pairs| - 1]);
      assert forall i :: 0 <= i < |pairs| - 1 ==> pairs[..|pairs| - 1][i] == pairs[i];
      m[last.0 := last.1]
  }

  function IdPairs(history: seq<HistoryRow>): (pairs: seq<(int, string)>)
    ensures |pairs| == |history|
  {
    seq(|history|, i requires 0 <= i < |history| => (history[i].teamId, history[i].abbr))
  }

  /** team_id_map: the distinct (TEAM_ID, TEAM_ABBREVIATION) pairs in order
      of first appearance, turned into a dictionary. */
  function TeamIdMap(history: seq<HistoryRow>): map<int, string>
  {
    ToDict(FirstSeen({}, IdPairs(history)))
  }

  /** The map knows exactly the ids of the history, and maps each to an
      abbreviation the history pairs it with. */
  lemma TeamIdMapExact(history: seq<HistoryRow>)
    ensures forall id :: id in TeamIdMap(history) <==> exists h :: h in history && h.teamId == id
    ensures forall id :: id in TeamIdMap(history) ==>
      exists h :: h in history && h.teamId == id && h.abbr == TeamIdMap(history)[id]
  {
    var pairs := IdPairs(history);
    var firsts := FirstSeen({}, pairs);
    FirstSeenExact({}, pairs);
    assert forall p :: p in firsts <==> p in pairs by {
      forall p ensures p in firsts <==> p in pairs {
        assert p in firsts <==> p in Elems(firsts);
        assert p in pairs <==> p in Elems(pairs);
      }
    }
    forall id | id in TeamIdMap(history)
      ensures exists h :: h in history && h.teamId == id && h.abbr == TeamIdMap(history)[id]
    {
      var i := DictValueFrom(firsts, id);
      assert firsts[i] in firsts;
      var j :| 0 <= j < |pairs| && pairs[j] == firsts[i];
      assert history[j] in history;
    }
    forall id | exists h :: h in history && h.teamId == id
      ensures id in TeamIdMap(history)
    {
      var h :| h in history && h.teamId == id;
      var j :| 0 <= j < |history| && history[j] == h;
      assert pairs[j] in pairs;
      var i :| 0 <= i < |firsts| && firsts[i] == pairs[j];
    }
  }

  /** The value a dictionary holds for a key comes from one of its pairs. */
  lemma {:induction false} DictValueFrom(pairs: seq<(int, string)>, id: int) returns (i: nat)
    requires id in ToDict(pairs)
    ensures i < |pairs| && pairs[i] == (id, ToDict(pairs)[id])
  {
    var last := pairs[|pairs| - 1];
    if last.0 == id {
      i := |pairs| - 1;
    } else {
      var init := pairs[..|pairs| - 1];
      i := DictValueFrom(init, id);
    }
  }

  /** team_id_map.get(id), read as a truth value: a missing id and an empty
      abbreviation both count as unknown. */
  function KnownAbbr(ids: map<int, string>, id: int): (r: Option<string>)
    ensures r.Some? <==> id in ids && ids[id] != ""
    ensures r.Some? ==> r.value == ids[id]
  {
    if id in ids && ids[id] != "" then Some(ids[id]) else None
  }

  // ---------------------------------------------------------------------
  // Recommendation

  /** The recommendation text, with the line it quotes: the home spread as
      typed, or the away line (the spread negated) after a '+' when it is
      positive. */
  datatype Recommendation = NoBet | BetOn(team: string, line: real, sign: string)

  /** The recommendation rule on the edge (predicted margin minus spread). */
  function Recommend(home: string, away: string, predicted: real, spread: real): (r: Recommendation)
    ensures r.NoBet? <==> -3.0 <= predicted - spread <= 3.0
    ensures predicted - spread > 3.0 ==> r == BetOn(home, spread, "")
    ensures predicted - spread < -3.0 ==>
      r.team == away && r.line == -spread && (r.sign == "+" <==> r.line > 0.0) && (r.sign == "" <==> r.line <= 0.0)
  {
    var edge := predicted - spread;
    var rec := if edge > 3.0 then BetOn(home, spread, "") else NoBet;
    if edge < -3.0 then BetOn(away, -spread, if -spread > 0.0 then "+" else "") else rec
  }

  /** Seen from the other side (teams swapped, margins and spread negated),
      the rule backs the same team at the same line. */
  lemma RecommendSymmetric(home: string, away: string, predicted: real, spread: real)
    requires home != away
    ensures var r := Recommend(home, away, predicted, spread);
      var s := Recommend(away, home, -predicted, -spread);
      r.NoBet? == s.NoBet? && (r.BetOn? ==> r.team == s.team && r.line == s.line)
  {
  }

  // ---------------------------------------------------------------------
  // One scheduled game

  /** Element-wise home minus away stats: the model's input. */
  function Diff(home: TeamStats, away: TeamStats): (d: TeamStats)
    ensures forall c :: 0 <= c < StatCount ==> d[c] == home[c] - away[c]
  {
    seq(StatCount, c requires 0 <= c < StatCount => home[c] - away[c])
  }

  /** Swapping the teams negates the model input; a team against itself
      gives zeros. */
  lemma DiffAntisymmetric(a: TeamStats, b: TeamStats)
    ensures forall c :: 0 <= c < StatCount ==> Diff(a, b)[c] == -Diff(b, a)[c]
    ensures forall c :: 0 <= c < StatCount ==> Diff(a, a)[c] == 0.0
  {
  }

  datatype ScheduledGame = ScheduledGame(gameId: int, homeId: int, awayId: int)

  /** A row of the prediction log. */
  datatype Prediction = Prediction(date: int, league: string, home: string, away: string,
                                   predicted: real, spread: real, edge: real,
                                   recommendation: Recommendation, actual: string)

  /** What the run works with: the chosen league, today's date, the raw
      history, the trained model and Python's float(). */
  datatype Context = Context(league: string, today: int, history: seq<HistoryRow>,
                             predict: TeamStats -> real, toFloat: string -> Option<real>)

  function Lower(c: char): char
  {
    if 'A' <= c <= 'Z' then (c as int + 32) as char else c
  }

  /** vegas_spread_str.lower() == 'skip' */
  predicate IsSkip(s: string)
  {
    |s| == 4 && Lower(s[0]) == 's' && Lower(s[1]) == 'k' && Lower(s[2]) == 'i' && Lower(s[3]) == 'p'
  }

  /** The outcome of one game: a record or none, and how many answers it
      read from the prompt (0 or 1). */
  datatype GameStep = GameStep(record: Option<Prediction>, read: nat)

  /** A game both of whose teams are known and have history: the two
      abbreviations and their smoothed stats. */
  datatype Matchup = Matchup(home: string, away: string, homeStats: TeamStats, awayStats: TeamStats)

  /** The lookups before the prompt: an unknown team id (or an empty
      abbreviation) or a team without history skips the game. */
  function Teams(ctx: Context, game: ScheduledGame): (m: Option<Matchup>)
    ensures var ids := TeamIdMap(ctx.history);
      m.Some? <==>
        KnownAbbr(ids, game.homeId).Some? && KnownAbbr(ids, game.awayId).Some? &&
        LatestEwma(ctx.history, KnownAbbr(ids, game.homeId).value).Some? &&
        LatestEwma(ctx.history, KnownAbbr(ids, game.awayId).value).Some?
    ensures m.Some? ==>
      Some(m.value.home) == KnownAbbr(TeamIdMap(ctx.history), game.homeId) &&
      Some(m.value.away) == KnownAbbr(TeamIdMap(ctx.history), game.awayId) &&
      Some(m.value.homeStats) == LatestEwma(ctx.history, m.value.home) &&
      Some(m.value.awayStats) == LatestEwma(ctx.history, m.value.away)
  {
    var ids := TeamIdMap(ctx.history);
    var home := KnownAbbr(ids, game.homeId);
    var away := KnownAbbr(ids, game.awayId);
    if home.None? || away.None? then None
    else
      var homeStats := LatestEwma(ctx.history, home.value);
      var awayStats := LatestEwma(ctx.history, away.value);
      if homeStats.None? || awayStats.None? then None
      else Some(Matchup(home.value, away.value, homeStats.value, awayStats.value))
  }

  /** The typed spread: "skip" in any letter case, or text float() rejects,
      skips the game; a number gives the record. */
  function Answer(ctx: Context, m: Matchup, answer: string): (p: Option<Prediction>)
    ensures p.None? <==> IsSkip(answer) || ctx.toFloat(answer).None?
    ensures p.Some? ==>
      p.value.home == m.home && p.value.away == m.away &&
      p.value.predicted == ctx.predict(Diff(m.homeStats, m.awayStats)) &&
      p.value.spread == ctx.toFloat(answer).value && p.value.edge == p.value.predicted - p.value.spread &&
      p.value.recommendation == Recommend(m.home, m.away, p.value.predicted, p.value.spread)
  {
    var predicted := ctx.predict(Diff(m.homeStats, m.awayStats));
    if IsSkip(answer) then None
    else
      match ctx.toFloat(answer)
      case None => None
      case Some(spread) =>
        var edge := predicted - spread;
        Some(Prediction(ctx.today, ctx.league, m.home, m.away, predicted, spread, edge,
                        Recommend(m.home, m.away, predicted, spread), "Pending"))
  }

  /** One iteration of the loop over today's games, given the answers still
      to be typed: a skipped lookup reads nothing; otherwise one answer is
      read, and running out of answers raises (end of input). */
  function Handle(ctx: Context, game: ScheduledGame, answers: seq<string>): (r: Outcome<GameStep>)
    ensures r.Raised? <==> Teams(ctx, game).Some? && answers == []
    ensures r.Done? && Teams(ctx, game).None? ==> r.value == GameStep(None, 0)
    ensures r.Done? && Teams(ctx, game).Some? ==> r.value == GameStep(Answer(ctx, Teams(ctx, game).value, answers[0]), 1)
  {
    match Teams(ctx, game)
    case None => Done(GameStep(None, 0))
    case Some(m) =>
      if answers == [] then Raised("EOF when reading a line")
      else Done(GameStep(Answer(ctx, m, answers[0]), 1))
  }

  /** The records of the games so far and the number of answers read, or
      the error that ended the loop. */
  function Loop(ctx: Context, games: seq<ScheduledGame>, answers: seq<string>): (r: Outcome<(seq<Prediction>, nat)>)
    ensures r.Done? ==> |r.value.0| <= |games| && r.value.1 <= |answers| && r.value.1 <= |games|
  {
    if games == [] then Done(([], 0))
    else
      match Loop(ctx, games[..|games| - 1], answers)
      case Raised(e) => Raised(e)
      case Done((records, used)) => Next(ctx, games[|games| - 1], answers, records, used)
  }

  /** One pass of the loop body: the game's step applied to the records and
      the answer count so far. */
  function Next(ctx: Context, game: ScheduledGame, answers: seq<string>, records: seq<Prediction>, used: nat)
    : (r: Outcome<(seq<Prediction>, nat)>)
    requires used <= |answers|
    ensures r.Done? ==> |r.value.0| <= |records| + 1 && used <= r.value.1 <= used + 1 && r.value.1 <= |answers|
  {
    match Handle(ctx, game, answers[used..])
    case Raised(e) => Raised(e)
    case Done(step) => Done(Advance(records, used, step))
  }

  /** Each record's edge and recommendation follow from its prediction and
      line, its teams are those of a scheduled game, and a record is never
      made for an unknown team. */
  lemma {:induction false} LoopRecords(ctx: Context, games: seq<ScheduledGame>, answers: seq<string>)
    ensures Loop(ctx, games, answers).Done? ==>
      forall p :: p in Loop(ctx, games, answers).value.0 ==>
        p.edge == p.predicted - p.spread && p.recommendation == Recommend(p.home, p.away, p.predicted, p.spread) &&
        exists g :: g in games && Some(p.home) == KnownAbbr(TeamIdMap(ctx.history), g.homeId) &&
                                  Some(p.away) == KnownAbbr(TeamIdMap(ctx.history), g.awayId)
  {
    if games != [] {
      var init := games[..|games| - 1];
      LoopRecords(ctx, init, answers);
      assert forall g :: g in init ==> g in games;
    }
  }

  /** A game whose teams are unknown or have no history reads no answer and
      makes no record. */
  lemma SkippedGameIsSilent(ctx: Context, games: seq<ScheduledGame>, answers: seq<string>, g: ScheduledGame)
    requires Loop(ctx, games, answers).Done?
    requires KnownAbbr(TeamIdMap(ctx.history), g.homeId).None? || KnownAbbr(TeamIdMap(ctx.history), g.awayId).None?
    ensures Loop(ctx, games + [g], answers) == Loop(ctx, games, answers)
  {
    assert (games + [g])[..|games + [g]| - 1] == games;
  }

  /** Once the loop raises, the games after it change nothing. */
  lemma {:induction false} RaisedPrefix(ctx: Context, games: seq<ScheduledGame>, answers: seq<string>, n: nat)
    requires n <= |games| && Loop(ctx, games[..n], answers).Raised?
    ensures Loop(ctx, games, answers).Raised?
    decreases |games|
  {
    if n < |games| {
      var init := games[..|games| - 1];
      assert init[..n] == games[..n];
      RaisedPrefix(ctx, init, answers, n);
    } else {
      assert games[..n] == games;
    }
  }

  /** The records and the answer count after one handled game. */
  function Advance(records: seq<Prediction>, used: nat, step: GameStep): (seq<Prediction>, nat)
  {
    (if step.record.Some? then records + [step.record.value] else records, used + step.read)
  }

  /** One more game extends the loop by that game's step; a step that
      raises ends the whole loop raised. */
  lemma LoopStep(ctx: Context, games: seq<ScheduledGame>, answers: seq<string>, i: nat,
                 records: seq<Prediction>, used: nat)
    requires i < |games| && Loop(ctx, games[..i], answers) == Done((records, used))
    ensures used <= |answers|
    ensures Loop(ctx, games[..i + 1], answers) == Next(ctx, games[i], answers, records, used)
    ensures Next(ctx, games[i], answers, records, used).Raised? ==> Loop(ctx, games, answers).Raised?
  {
    assert games[..i + 1][..i] == games[..i];
    if Next(ctx, games[i], answers, records, used).Raised? {
      RaisedPrefix(ctx, games, answers, i + 1);
    }
  }

  /** Step 5: the loop over today's schedule. */
  method ProcessGames(ctx: Context, games: seq<ScheduledGame>, answers: seq<string>)
    returns (r: Outcome<seq<Prediction>>)
    ensures Loop(ctx, games, answers).Raised? <==> r.Raised?
    ensures r.Done? ==> r.value == Loop(ctx, games, answers).value.0
  {
    var predictionsToday: seq<Prediction> := [];
    var used := 0;
    for i := 0 to |games|
      invariant Loop(ctx, games[..i], answers) == Done((predictionsToday, used))
    {
      LoopStep(ctx, games, answers, i, predictionsToday, used);
      var out := Next(ctx, games[i], answers, predictionsToday, used);
      if out.Raised? {
        return Raised(out.reason);
      }
      predictionsToday, used := out.value.0, out.value.1;
    }
    assert games[..|games|] == games;
    return Done(predictionsToday);
  }

  /** Step 6: the saved log. Nothing is written when no record was made;
      otherwise the existing log (when there is one) followed by today's
      records. */
  function SaveLog(existing: Option<seq<Prediction>>, today: seq<Prediction>): (saved: Option<seq<Prediction>>)
    ensures today == [] ==> saved == existing
    ensures today != [] ==> saved.Some? && |saved.value| == |existing.GetOr([])| + |today|
    ensures today != [] ==> saved.value[..|existing.GetOr([])|] == existing.GetOr([]) &&
                            saved.value[|existing.GetOr([])|..] == today
  {
    if today == [] then existing
    else match existing
      case None => Some(today)
      case Some(log) => Some(log + today)
  }

  /** Saving twice appends both days in order. */
  lemma SaveLogTwice(existing: Option<seq<Prediction>>, day1: seq<Prediction>, day2: seq<Prediction>)
    ensures SaveLog(SaveLog(existing, day1), day2).GetOr([]) == existing.GetOr([]) + day1 + day2
  {
  }

  // ---------------------------------------------------------------------
  // League choice

  datatype League = League(name: string, modelFile: string, rawDataFile: string, leagueId: string)

  /** Python's str.isspace() for one character: the ASCII controls \t to \r
      and \x1c to \x1f, the space, and the Unicode spaces and separators. */
  predicate IsSpace(c: char)
  {
    (9 as char <= c <= 13 as char) || (28 as char <= c <= 32 as char) ||
    c == 0x85 as char || c == 0xa0 as char || c == 0x1680 as char ||
    (0x2000 as char <= c <= 0x200a as char) || c == 0x2028 as char || c == 0x2029 as char ||
    c == 0x202f as char || c == 0x205f as char || c == 0x3000 as char
  }

  function Upper(s: string): (u: string)
    ensures |u| == |s|
    ensures forall i :: 0 <= i < |s| ==> u[i] == (if 'a' <= s[i] <= 'z' then (s[i] as int - 32) as char else s[i])
  {
    seq(|s|, i requires 0 <= i < |s| => if 'a' <= s[i] <= 'z' then (s[i] as int - 32) as char else s[i])
  }

  /** The first position at or after i that is not whitespace. */
  function SkipSpaces(s: string, i: nat): (k: nat)
    requires i <= |s|
    ensures i <= k <= |s| && (k < |s| ==> !IsSpace(s[k]))
    ensures forall m :: i <= m < k ==> IsSpace(s[m])
    decreases |s| - i
  {
    if i < |s| && IsSpace(s[i]) then SkipSpaces(s, i + 1) else i
  }

  /** The end of s[..j] once its trailing whitespace is removed. */
  function TrimEnd(s: string, j: nat): (k: nat)
    requires j <= |s|
    ensures k <= j && (k > 0 ==> !IsSpace(s[k - 1]))
    ensures forall m :: k <= m < j ==> IsSpace(s[m])
  {
    if j > 0 && IsSpace(s[j - 1]) then TrimEnd(s, j - 1) else j
  }

  /** str.strip(): leading and trailing whitespace removed. */
  function Strip(s: string): (t: string)
    ensures t == [] <==> forall k :: 0 <= k < |s| ==> IsSpace(s[k])
    ensures t != [] ==> !IsSpace(t[0]) && !IsSpace(t[|t| - 1])
    ensures exists i, j ::
              0 <= i <= j <= |s| && t == s[i..j] &&
              (forall k :: 0 <= k < i ==> IsSpace(s[k])) && (forall k :: j <= k < |s| ==> IsSpace(s[k]))
  {
    var j := TrimEnd(s, |s|);
    if j == 0 then
      assert [] == s[0..0];
      []
    else
      var i := SkipSpaces(s, 0);
      assert !IsSpace(s[j - 1]);
      s[i..j]
  }

  /** Step 1: the answer, stripped and upper-cased, picks the league; any
      other answer ends the run. */
  function ChooseLeague(answer: string): (r: Option<League>)
    ensures r.Some? <==> Upper(Strip(answer)) in {"NBA", "WNBA"}
    ensures r.Some? ==> r.value.name == Upper(Strip(answer))
  {
    var choice := Upper(Strip(answer));
    if choice == "NBA" then Some(League("NBA", "nba_model_tuned.joblib", "nba_games_raw.csv", "00"))
    else if choice == "WNBA" then Some(League("WNBA", "wnba_model_tuned.joblib", "wnba_games_raw.csv", "10"))
    else None
  }

  /** The whole run after the model and data are loaded: no schedule, or no
      record, leaves the log as it was. */
  function Forecast(ctx: Context, games: seq<ScheduledGame>, answers: seq<string>,
                    existing: Option<seq<Prediction>>): (r: Outcome<Option<seq<Prediction>>>)
    ensures games == [] ==> r == Done(existing)
    ensures r.Raised? <==> Loop(ctx, games, answers).Raised?
    ensures games != [] && r.Done? ==> r.value == SaveLog(existing, Loop(ctx, games, answers).value.0)
  {
    if games == [] then Done(existing)
    else match Loop(ctx, games, answers)
      case Raised(e) => Raised(e)
      case Done((records, _)) => Done(SaveLog(existing, records))
  }
}
