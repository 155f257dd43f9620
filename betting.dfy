/** The variable betting strategy shared by the NBA and WNBA walk-forward
    backtests: confidence tiers on the model's edge over the Vegas spread,
    one bet per game at its highest tier, settlement against the final
    point differential, and the reported totals. */
module Betting {
  import opened Wrappers
  import opened Seqs

  /** A confidence tier: a game is bet at this tier when |edge| strictly
      exceeds `edge`. */
  datatype Tier = Tier(level: string, edge: real, units: nat)

  /** BETTING_THRESHOLDS, in the order the loop visits them (sorted by edge,
      highest first). */
  const Thresholds: seq<Tier> := [
    Tier("High_Confidence", 8.0, 3),
    Tier("Medium_Confidence", 5.0, 2),
    Tier("Low_Confidence", 3.0, 1)
  ]

  /** A game of the test set: its id and date, the home team's actual point
      differential, the Vegas spread and the model's predicted differential. */
  datatype TestGame = TestGame(gameId: int, date: int, homeAbbr: string,
                               pointDiff: real, spread: real, prediction: real)

  /** A game bet at a tier. */
  datatype Bet = Bet(game: TestGame, units: nat, level: string)

  /** edge = model_prediction - vegas_spread */
  function Edge(g: TestGame): real
  {
    g.prediction - g.spread
  }

  function Abs(x: real): (r: real)
    ensures r >= 0.0 && (r == x || r == -x)
  {
    if x < 0.0 then -x else x
  }

  /** The units a game earns on its own: 3 above 8 points of edge, 2 above 5,
      1 above 3, none otherwise (every bound strict). */
  function TierUnits(edge: real): (u: nat)
    ensures u <= 3
    ensures u == 0 <==> Abs(edge) <= 3.0
  {
    if Abs(edge) > 8.0 then 3 else if Abs(edge) > 5.0 then 2 else if Abs(edge) > 3.0 then 1 else 0
  }

  /** The tiers are visited from the highest threshold down, and a higher
      threshold pays more units. */
  lemma ThresholdsDescending()
    ensures forall a, b :: 0 <= a < b < |Thresholds| ==>
      Thresholds[a].edge > Thresholds[b].edge && Thresholds[a].units > Thresholds[b].units
    ensures forall a :: 0 <= a < |Thresholds| ==> Thresholds[a].units > 0
  {
  }

  function Qualifies(threshold: real): TestGame -> bool
  {
    (g: TestGame) => Abs(Edge(g)) > threshold
  }

  /** The bets one tier adds: the qualifying games in test-set order. */
  function TierBets(test: seq<TestGame>, t: Tier): (bets: seq<Bet>)
    ensures forall b :: b in bets ==> b.game in test && b.units == t.units && Abs(Edge(b.game)) > t.edge
    ensures forall g :: g in test && Abs(Edge(g)) > t.edge ==> Bet(g, t.units, t.level) in bets
  {
    var sel := Filter(test, Qualifies(t.edge));
    var bets := seq(|sel|, i requires 0 <= i < |sel| => Bet(sel[i], t.units, t.level));
    assert forall b :: b in bets ==> b.game in sel by {
      forall b | b in bets ensures b.game in sel {
        var i :| 0 <= i < |bets| && bets[i] == b;
        assert sel[i] in sel;
      }
    }
    assert forall g :: g in sel ==> Bet(g, t.units, t.level) in bets by {
      forall g | g in sel ensures Bet(g, t.units, t.level) in bets {
        var i :| 0 <= i < |sel| && sel[i] == g;
        assert bets[i] == Bet(g, t.units, t.level);
      }
    }
    bets
  }

  /** bets_df after the first n tiers of the loop. */
  function CandidatesUpTo(test: seq<TestGame>, n: nat): seq<Bet>
    requires n <= |Thresholds|
  {
    if n == 0 then [] else CandidatesUpTo(test, n - 1) + TierBets(test, Thresholds[n - 1])
  }

  function SameGame(a: Bet, b: Bet): bool
  {
    a.game.gameId == b.game.gameId
  }

  /** drop_duplicates(subset=['GAME_ID_home'], keep='first'). */
  function FirstPerGame(bets: seq<Bet>): (r: seq<Bet>)
    ensures |r| <= |bets|
  {
    if bets == [] then []
    else
      var init := bets[..|bets| - 1];
      var last := bets[|bets| - 1];
      if exists j :: 0 <= j < |init| && SameGame(init[j], last) then FirstPerGame(init)
      else FirstPerGame(init) + [last]
  }

  /** Position i holds the first bet of its game. */
  predicate FirstOfGame(bets: seq<Bet>, i: nat)
    requires i < |bets|
  {
    forall j :: 0 <= j < i ==> !SameGame(bets[j], bets[i])
  }

  /** Every bet FirstPerGame keeps is the first bet of its game. */
  lemma {:induction false} FirstPerGameKeepsFirst(bets: seq<Bet>)
    ensures forall x :: x in FirstPerGame(bets) ==> exists i :: 0 <= i < |bets| && bets[i] == x && FirstOfGame(bets, i)
  {
    if bets != [] {
      var init := bets[..|bets| - 1];
      var last := bets[|bets| - 1];
      FirstPerGameKeepsFirst(init);
      forall x | x in FirstPerGame(bets)
        ensures exists i :: 0 <= i < |bets| && bets[i] == x && FirstOfGame(bets, i)
      {
        if x in FirstPerGame(init) {
          var i :| 0 <= i < |init| && init[i] == x && FirstOfGame(init, i);
          assert bets[i] == x;
        } else {
          assert x == last && FirstOfGame(bets, |bets| - 1);
        }
      }
    }
  }

  /** FirstPerGame keeps at most one bet per game. */
  lemma {:induction false} FirstPerGameDistinct(bets: seq<Bet>)
    ensures forall a, b :: 0 <= a < b < |FirstPerGame(bets)| ==> !SameGame(FirstPerGame(bets)[a], FirstPerGame(bets)[b])
  {
    if bets != [] {
      var init := bets[..|bets| - 1];
      var last := bets[|bets| - 1];
      FirstPerGameDistinct(init);
      FirstPerGameKeepsFirst(init);
      var p := FirstPerGame(init);
      assert forall a, b :: 0 <= a < b < |p| ==> !SameGame(p[a], p[b]);
      if !exists j :: 0 <= j < |init| && SameGame(init[j], last) {
        var r := FirstPerGame(bets);
        assert r == p + [last];
        forall a | 0 <= a < |p|
          ensures !SameGame(p[a], last)
        {
          assert p[a] in p;
          var i :| 0 <= i < |init| && init[i] == p[a] && FirstOfGame(init, i);
        }
        forall a, b | 0 <= a < b < |r|
          ensures !SameGame(r[a], r[b])
        {
          if b == |r| - 1 {
            assert r[a] == p[a] && r[b] == last;
          } else {
            assert r[a] == p[a] && r[b] == p[b];
          }
        }
      }
    }
  }

  /** Every game of `bets` has a bet in `kept`. */
  predicate CoversGames(bets: seq<Bet>, kept: seq<Bet>)
  {
    forall i :: 0 <= i < |bets| ==> exists k :: 0 <= k < |kept| && kept[k].game.gameId == bets[i].game.gameId
  }

  /** FirstPerGame keeps a bet of every game present. */
  lemma FirstPerGameCovers(bets: seq<Bet>)
    ensures CoversGames(bets, FirstPerGame(bets))
  {
    var r := FirstPerGame(bets);
    forall i | 0 <= i < |bets|
      ensures exists k :: 0 <= k < |r| && r[k].game.gameId == bets[i].game.gameId
    {
      var k := KeptOfGame(bets, i);
    }
  }

  /** The position in FirstPerGame(bets) of the bet kept for the game of
      bets[i]. */
  lemma {:induction false} KeptOfGame(bets: seq<Bet>, i: nat) returns (k: nat)
    requires i < |bets|
    ensures k < |FirstPerGame(bets)| && FirstPerGame(bets)[k].game.gameId == bets[i].game.gameId
  {
    var init := bets[..|bets| - 1];
    var last := bets[|bets| - 1];
    var r := FirstPerGame(bets);
    if i < |init| {
      k := KeptOfGame(init, i);
      assert r[k] == FirstPerGame(init)[k];
    } else if j :| 0 <= j < |init| && SameGame(init[j], last) {
      k := KeptOfGame(init, j);
      assert r[k] == FirstPerGame(init)[k];
    } else {
      k := |r| - 1;
    }
  }

  /** Step 5 of the script: the loop over the tiers that accumulates the
      qualifying games, then the per-game de-duplication. */
  method SelectBets(test: seq<TestGame>) returns (bets: seq<Bet>)
    ensures bets == Selected(test)
  {
    var candidates: seq<Bet> := [];
    var n := 0;
    while n < |Thresholds|
      invariant n <= |Thresholds|
      invariant candidates == CandidatesUpTo(test, n)
    {
      var tierBets := TierBets(test, Thresholds[n]);
      if tierBets != [] {
        candidates := candidates + tierBets;
      }
      n := n + 1;
    }
    bets := FirstPerGame(candidates);
  }

  function Selected(test: seq<TestGame>): seq<Bet>
  {
    FirstPerGame(CandidatesUpTo(test, |Thresholds|))
  }

  /** Each game is bet at most once. */
  lemma OneBetPerGame(test: seq<TestGame>)
    ensures forall a, b :: 0 <= a < b < |Selected(test)| ==>
      Selected(test)[a].game.gameId != Selected(test)[b].game.gameId
  {
    FirstPerGameDistinct(CandidatesUpTo(test, |Thresholds|));
    var r := Selected(test);
    assert forall a, b :: 0 <= a < b < |r| ==> !SameGame(r[a], r[b]);
  }

  /** Every bet is on a game of the test set and stakes the units of its own
      edge's tier, the highest tier any row of that game reaches. */
  lemma BetsAtHighestTier(test: seq<TestGame>)
    ensures forall b :: b in Selected(test) ==> b.game in test && b.units == TierUnits(Edge(b.game)) && b.units > 0
    ensures forall b, g :: b in Selected(test) && g in test && g.gameId == b.game.gameId ==> TierUnits(Edge(g)) <= b.units
  {
    var cands := CandidatesUpTo(test, |Thresholds|);
    FirstPerGameKeepsFirst(cands);
    forall b, g | b in Selected(test) && g in test && g.gameId == b.game.gameId
      ensures TierUnits(Edge(g)) <= b.units
    {
      var i :| 0 <= i < |cands| && cands[i] == b && FirstOfGame(cands, i);
      NoHigherTierEarlier(test, cands, i, g);
    }
    forall b | b in Selected(test)
      ensures b.game in test && b.units == TierUnits(Edge(b.game)) && b.units > 0
    {
      var i :| 0 <= i < |cands| && cands[i] == b && FirstOfGame(cands, i);
      assert TierBets(test, Thresholds[0]) + TierBets(test, Thresholds[1]) + TierBets(test, Thresholds[2]) == cands by {
        CandidatesAreTiers(test);
      }
      assert cands[i] in cands;
      NoHigherTierEarlier(test, cands, i, cands[i].game);
    }
  }

  /** Every game of the test set whose |edge| exceeds 3 is bet. */
  lemma EdgeGamesAreBet(test: seq<TestGame>)
    ensures forall g :: g in test && Abs(Edge(g)) > 3.0 ==> exists b :: b in Selected(test) && b.game.gameId == g.gameId
  {
    forall g | g in test && Abs(Edge(g)) > 3.0
      ensures exists b :: b in Selected(test) && b.game.gameId == g.gameId
    {
      EdgeGameIsBet(test, g);
    }
  }

  lemma EdgeGameIsBet(test: seq<TestGame>, g: TestGame)
    requires g in test && Abs(Edge(g)) > 3.0
    ensures exists b :: b in Selected(test) && b.game.gameId == g.gameId
  {
    var cands := CandidatesUpTo(test, |Thresholds|);
    var j := CandidateOfEdgeGame(test, g);
    var k := KeptOfGame(cands, j);
    var r := Selected(test);
    assert r[k] in r;
  }

  /** A game whose |edge| exceeds 3 has a candidate in the lowest tier. */
  lemma CandidateOfEdgeGame(test: seq<TestGame>, g: TestGame) returns (j: nat)
    requires g in test && Abs(Edge(g)) > 3.0
    ensures j < |CandidatesUpTo(test, |Thresholds|)|
    ensures CandidatesUpTo(test, |Thresholds|)[j].game == g
  {
    var c1, c2, c3 := TierSegments(test);
    var i := TierBetIndex(test, Thresholds[2], g);
    j := |c1| + |c2| + i;
    assert (c1 + c2 + c3)[j] == c3[i];
  }

  lemma TierBetIndex(test: seq<TestGame>, t: Tier, g: TestGame) returns (i: nat)
    requires g in test && Abs(Edge(g)) > t.edge
    ensures i < |TierBets(test, t)| && TierBets(test, t)[i].game == g
  {
    var bets := TierBets(test, t);
    assert Bet(g, t.units, t.level) in bets;
    i :| 0 <= i < |bets| && bets[i] == Bet(g, t.units, t.level);
  }

  /** The three segments of the candidate list, one per tier. */
  lemma TierSegments(test: seq<TestGame>) returns (c1: seq<Bet>, c2: seq<Bet>, c3: seq<Bet>)
    ensures c1 == TierBets(test, Thresholds[0]) && c2 == TierBets(test, Thresholds[1])
    ensures c3 == TierBets(test, Thresholds[2])
    ensures CandidatesUpTo(test, |Thresholds|) == c1 + c2 + c3
  {
    c1, c2, c3 := TierBets(test, Thresholds[0]), TierBets(test, Thresholds[1]), TierBets(test, Thresholds[2]);
    CandidatesAreTiers(test);
  }

  lemma CandidatesAreTiers(test: seq<TestGame>)
    ensures CandidatesUpTo(test, |Thresholds|) ==
      TierBets(test, Thresholds[0]) + TierBets(test, Thresholds[1]) + TierBets(test, Thresholds[2])
  {
    assert CandidatesUpTo(test, 1) == TierBets(test, Thresholds[0]);
  }

  /** A candidate of an earlier segment is of another game than the first
      candidate of a game that comes after it. */
  lemma EarlierSegment(pre: seq<Bet>, rest: seq<Bet>, i: nat, x: Bet)
    requires |pre| <= i < |pre + rest| && FirstOfGame(pre + rest, i)
    requires x in pre
    ensures !SameGame(x, (pre + rest)[i])
  {
    var j :| 0 <= j < |pre| && pre[j] == x;
    assert (pre + rest)[j] == x;
  }

  /** The first candidate of a game sits in the tier its game's best row
      reaches: a row of the same game with more units would have put an
      earlier candidate of that game in a higher tier. */
  lemma NoHigherTierEarlier(test: seq<TestGame>, cands: seq<Bet>, i: nat, g: TestGame)
    requires cands == CandidatesUpTo(test, |Thresholds|)
    requires i < |cands| && FirstOfGame(cands, i)
    requires g in test && g.gameId == cands[i].game.gameId
    ensures cands[i].game in test && cands[i].units > 0
    ensures TierUnits(Edge(g)) <= cands[i].units
    ensures TierUnits(Edge(cands[i].game)) == cands[i].units
  {
    var c1, c2, c3 := TierSegments(test);
    if i < |c1| {
      FirstTierFirst(test, cands, c1, c2, c3, i, g);
    } else if i < |c1| + |c2| {
      SecondTierFirst(test, cands, c1, c2, c3, i, g);
    } else {
      ThirdTierFirst(test, cands, c1, c2, c3, i, g);
    }
  }

  /** The case of a first candidate in the 3-unit tier. */
  lemma FirstTierFirst(test: seq<TestGame>, cands: seq<Bet>, c1: seq<Bet>, c2: seq<Bet>, c3: seq<Bet>, i: nat, g: TestGame)
    requires c1 == TierBets(test, Thresholds[0]) && cands == c1 + c2 + c3 && i < |c1|
    ensures cands[i].game in test && cands[i].units == 3
    ensures TierUnits(Edge(g)) <= cands[i].units && TierUnits(Edge(cands[i].game)) == cands[i].units
  {
    assert cands[i] == (c1 + c2)[i] == c1[i];
    assert c1[i] in c1;
  }

  /** The case of a first candidate in the 2-unit tier. */
  lemma SecondTierFirst(test: seq<TestGame>, cands: seq<Bet>, c1: seq<Bet>, c2: seq<Bet>, c3: seq<Bet>, i: nat, g: TestGame)
    requires c1 == TierBets(test, Thresholds[0]) && c2 == TierBets(test, Thresholds[1])
    requires cands == c1 + c2 + c3
    requires |c1| <= i < |c1| + |c2| && FirstOfGame(cands, i)
    requires g in test && g.gameId == cands[i].game.gameId
    ensures cands[i].game in test && cands[i].units == 2
    ensures TierUnits(Edge(g)) <= cands[i].units && TierUnits(Edge(cands[i].game)) == cands[i].units
  {
    assert cands == c1 + (c2 + c3);
    var b := cands[i];
    assert b == c2[i - |c1|];
    assert b in c2;
    if Abs(Edge(g)) > 8.0 {
      EarlierSegment(c1, c2 + c3, i, Bet(g, 3, "High_Confidence"));
      assert false;
    }
    if Abs(Edge(b.game)) > 8.0 {
      EarlierSegment(c1, c2 + c3, i, Bet(b.game, 3, "High_Confidence"));
      assert false;
    }
  }

  /** The case of a first candidate in the 1-unit tier. */
  lemma ThirdTierFirst(test: seq<TestGame>, cands: seq<Bet>, c1: seq<Bet>, c2: seq<Bet>, c3: seq<Bet>, i: nat, g: TestGame)
    requires c1 == TierBets(test, Thresholds[0]) && c2 == TierBets(test, Thresholds[1])
    requires c3 == TierBets(test, Thresholds[2])
    requires cands == c1 + c2 + c3
    requires |c1| + |c2| <= i < |cands| && FirstOfGame(cands, i)
    requires g in test && g.gameId == cands[i].game.gameId
    ensures cands[i].game in test && cands[i].units == 1
    ensures TierUnits(Edge(g)) <= cands[i].units && TierUnits(Edge(cands[i].game)) == cands[i].units
  {
    var b := cands[i];
    assert b == c3[i - |c1| - |c2|];
    assert b in c3;
    if Abs(Edge(g)) > 5.0 {
      var h := if Abs(Edge(g)) > 8.0 then Bet(g, 3, "High_Confidence") else Bet(g, 2, "Medium_Confidence");
      assert h in c1 + c2;
      EarlierSegment(c1 + c2, c3, i, h);
      assert false;
    }
    if Abs(Edge(b.game)) > 5.0 {
      var h := if Abs(Edge(b.game)) > 8.0 then Bet(b.game, 3, "High_Confidence") else Bet(b.game, 2, "Medium_Confidence");
      assert h in c1 + c2;
      EarlierSegment(c1 + c2, c3, i, h);
      assert false;
    }
  }

  // ---------------------------------------------------------------------
  // Settlement and totals

  /** bet_won: the edge and the actual margin over the spread have the same
      strict sign. */
  predicate Won(b: Bet)
  {
    Edge(b.game) * (b.game.pointDiff - b.game.spread) > 0.0
  }

  /** profit_units: +units when won, -units otherwise. */
  function Profit(b: Bet): int
  {
    if Won(b) then b.units else -(b.units as int)
  }

  /** A bet on the home side (positive edge) wins when the home margin beats
      the spread, a bet on the away side (negative edge) when it falls short
      of it; a push, or a zero edge, loses. */
  lemma WonIff(b: Bet)
    ensures Won(b) <==>
      (Edge(b.game) > 0.0 && b.game.pointDiff > b.game.spread) ||
      (Edge(b.game) < 0.0 && b.game.pointDiff < b.game.spread)
    ensures b.game.pointDiff == b.game.spread ==> !Won(b)
  {
    var e := Edge(b.game);
    var m := b.game.pointDiff - b.game.spread;
    if e > 0.0 && m > 0.0 { MulSigns(e, m); }
    else if e < 0.0 && m < 0.0 { MulSigns(-e, -m); }
    else if e > 0.0 && m < 0.0 { MulSigns(e, -m); }
    else if e < 0.0 && m > 0.0 { MulSigns(-e, m); }
  }

  lemma MulSigns(a: real, b: real)
    requires a > 0.0 && b > 0.0
    ensures a * b > 0.0 && (-a) * (-b) > 0.0 && a * (-b) < 0.0 && (-a) * b < 0.0
  {
  }

  function Wins(bets: seq<Bet>): (n: nat)
    ensures n <= |bets|
  {
    if bets == [] then 0 else Wins(bets[..|bets| - 1]) + (if Won(bets[|bets| - 1]) then 1 else 0)
  }

  function Losses(bets: seq<Bet>): (n: nat)
    ensures n <= |bets|
  {
    if bets == [] then 0 else Losses(bets[..|bets| - 1]) + (if Won(bets[|bets| - 1]) then 0 else 1)
  }

  function UnitsRisked(bets: seq<Bet>): int
  {
    if bets == [] then 0 else UnitsRisked(bets[..|bets| - 1]) + bets[|bets| - 1].units
  }

  function UnitsWon(bets: seq<Bet>): int
  {
    if bets == [] then 0
    else UnitsWon(bets[..|bets| - 1]) + (if Won(bets[|bets| - 1]) then bets[|bets| - 1].units else 0)
  }

  function TotalProfit(bets: seq<Bet>): int
  {
    if bets == [] then 0 else TotalProfit(bets[..|bets| - 1]) + Profit(bets[|bets| - 1])
  }

  /** Every bet is won or lost; the profit is the units won minus the units
      lost, so it never exceeds the units risked in size. */
  lemma {:induction false} TotalsAddUp(bets: seq<Bet>)
    ensures Wins(bets) + Losses(bets) == |bets|
    ensures TotalProfit(bets) == 2 * UnitsWon(bets) - UnitsRisked(bets)
    ensures 0 <= UnitsWon(bets) <= UnitsRisked(bets)
    ensures -UnitsRisked(bets) <= TotalProfit(bets) <= UnitsRisked(bets)
  {
    if bets != [] {
      TotalsAddUp(bets[..|bets| - 1]);
    }
  }

  /** When every bet stakes at least one unit, the units risked are at least
      the number of bets. */
  lemma {:induction false} RiskedAtLeastBets(bets: seq<Bet>)
    requires forall b :: b in bets ==> b.units > 0
    ensures UnitsRisked(bets) >= |bets|
  {
    if bets != [] {
      RiskedAtLeastBets(bets[..|bets| - 1]);
    }
  }

  /** The printed results. */
  datatype Summary = Summary(totalBets: nat, wins: nat, losses: nat, winRate: real,
                           unitsRisked: int, totalProfit: int, roi: real)

  /** Step 6: the results of a non-empty set of bets; a ratio whose
      denominator is 0 is reported as 0. */
  function Results(bets: seq<Bet>): (r: Summary)
    ensures r.totalBets == |bets| && r.wins + r.losses == r.totalBets
    ensures r.wins == Wins(bets) && r.losses == Losses(bets)
    ensures r.unitsRisked == UnitsRisked(bets) && r.totalProfit == TotalProfit(bets)
    ensures r.totalBets > 0 ==> r.winRate == r.wins as real / r.totalBets as real
    ensures r.unitsRisked > 0 ==> r.roi == r.totalProfit as real / r.unitsRisked as real
    ensures r.totalBets == 0 ==> r.winRate == 0.0
    ensures r.unitsRisked <= 0 ==> r.roi == 0.0
    ensures r.totalBets > 0 ==> 0.0 <= r.winRate <= 1.0
    ensures r.unitsRisked > 0 ==> -1.0 <= r.roi <= 1.0
    ensures r.totalProfit == 2 * UnitsWon(bets) - r.unitsRisked
  {
    TotalsAddUp(bets);
    var total := |bets|;
    var wins := Wins(bets);
    var risked := UnitsRisked(bets);
    var profit := TotalProfit(bets);
    var winRate := if total > 0 then wins as real / total as real else 0.0;
    var roi := if risked > 0 then profit as real / risked as real else 0.0;
    RatioBounds(wins as real, total as real);
    RatioBounds(profit as real, risked as real);
    Summary(total, wins, total - wins, winRate, risked, profit, roi)
  }

  lemma RatioBounds(p: real, d: real)
    ensures d > 0.0 && -d <= p <= d ==> -1.0 <= p / d <= 1.0
  {
    if d > 0.0 && -d <= p <= d {
      assert p / d * d == p;
    }
  }

  /** The report step: no results when no game was bet. */
  function ReportBets(bets: seq<Bet>): (r: Option<Summary>)
    ensures r.None? <==> bets == []
  {
    if bets == [] then None else Some(Results(bets))
  }
}
