/** The anomaly finder (geoguessr/find_anomalous_games.py, lines 11-103,
    `find_anomalous_games`): per stored game, the list of anomalies (players
    with no rounds, a player count other than two, my id missing), and over
    all games the games and rounds each player id appears with, ranked by
    game count. File loading and the printed report are not part of this
    model. */
module Anomalies {
  import opened Common
  import opened Records
  import Ordered
  import Ranking
  import Cleanup

  datatype Anomaly =
    | ZeroRoundPlayer(playerId: string)
    | WrongPlayerCount(count: nat)
    | MissingPlayer(playerId: string)

  /** One `anomalous_games` record; `index` is the game's position in the
      input. */
  datatype AnomalyReport = AnomalyReport(
    gameId: string,
    index: nat,
    players: seq<string>,
    roundsPerPlayer: seq<(string, nat)>,
    anomalies: seq<Anomaly>)

  predicate Idle(p: PlayerStats) {
    |p.rounds| == 0
  }

  /** One anomaly per player without rounds, in dict order: the `k`-th
      anomaly names the `k`-th idle player. */
  function IdleAnomalies(ps: seq<PlayerStats>): (r: seq<Anomaly>)
    ensures |r| == CountWhere(ps, Idle)
    ensures |r| == |Ranking.Filter(ps, Idle)|
    ensures forall k | 0 <= k < |r| :: r[k] == ZeroRoundPlayer(Ranking.Filter(ps, Idle)[k].playerId)
  {
    if |ps| == 0 then []
    else
      var init := ps[..|ps| - 1];
      var p := ps[|ps| - 1];
      IdleAnomalies(init) + (if Idle(p) then [ZeroRoundPlayer(p.playerId)] else [])
  }

  /** `my_player_id and my_player_id not in player_stats`. */
  predicate MissingMe(ps: seq<PlayerStats>, me: Option<string>) {
    Truthy(me) && me.value !in PlayerIds(ps)
  }

  /** The two checks on the whole game: a player count other than two, then
      my id when it is given and absent. */
  function GameChecks(ps: seq<PlayerStats>, me: Option<string>): (r: seq<Anomaly>)
    ensures |r| == (if |ps| != 2 then 1 else 0) + (if MissingMe(ps, me) then 1 else 0)
    ensures forall k | 0 <= k < |r| :: !r[k].ZeroRoundPlayer?
    ensures forall k | 0 <= k < |r| && r[k].WrongPlayerCount? :: k == 0 && r[k].count == |ps| != 2
    ensures forall k | 0 <= k < |r| && r[k].MissingPlayer? :: MissingMe(ps, me) && r[k].playerId == me.value
    ensures |ps| != 2 ==> WrongPlayerCount(|ps|) in r
    ensures MissingMe(ps, me) ==> MissingPlayer(me.value) in r
  {
    (if |ps| != 2 then [WrongPlayerCount(|ps|)] else [])
      + (if MissingMe(ps, me) then [MissingPlayer(me.value)] else [])
  }

  /** The anomalies of one game, in the order they are checked: first the
      idle players, then the checks on the whole game. */
  function GameAnomalies(g: TeamGame, me: Option<string>): (r: seq<Anomaly>)
    ensures |r| == CountWhere(g.playerStats, Idle)
      + (if |g.playerStats| != 2 then 1 else 0)
      + (if MissingMe(g.playerStats, me) then 1 else 0)
    ensures r[..CountWhere(g.playerStats, Idle)] == IdleAnomalies(g.playerStats)
    ensures r[CountWhere(g.playerStats, Idle)..] == GameChecks(g.playerStats, me)
  {
    var idle := IdleAnomalies(g.playerStats);
    var r := idle + GameChecks(g.playerStats, me);
    assert r[..|idle|] == idle;
    r
  }

  /** A game is reported exactly when some player has no rounds, the count
      is not two, or my id is given and absent. */
  lemma ReportedIff(g: TeamGame, me: Option<string>)
    ensures |GameAnomalies(g, me)| > 0 <==>
      (exists i | 0 <= i < |g.playerStats| :: Idle(g.playerStats[i]))
      || |g.playerStats| != 2
      || MissingMe(g.playerStats, me)
  {
    CountWherePositive(g.playerStats, Idle);
  }

  /** Every game the cleanup removes is reported here: its criteria are a
      subset of these. */
  lemma CleanupRemovedAreReported(g: TeamGame, me: Option<string>)
    requires !Cleanup.Standard(g)
    ensures |GameAnomalies(g, me)| > 0
  {
    ReportedIff(g, me);
    if |g.playerStats| == 2 {
      var i :| 0 <= i < |g.playerStats| && |g.playerStats[i].rounds| == 0;
      assert Idle(g.playerStats[i]);
    }
  }

  /** The converse fails: a standard game still counts as anomalous when my
      id is absent from it. */
  lemma StandardGameCanBeReported(g: TeamGame, me: string)
    requires Cleanup.Standard(g) && me != "" && me !in PlayerIds(g.playerStats)
    ensures GameAnomalies(g, Some(me)) == [MissingPlayer(me)]
  {
    assert CountWhere(g.playerStats, Idle) == 0 by {
      CountWherePositive(g.playerStats, Idle);
    }
  }

  /** `{pid: len(stats["rounds"]) ...}`. */
  function RoundsPerPlayer(ps: seq<PlayerStats>): (r: seq<(string, nat)>)
    ensures |r| == |ps|
    ensures forall i | 0 <= i < |ps| :: r[i] == (ps[i].playerId, |ps[i].rounds|)
  {
    if |ps| == 0 then [] else RoundsPerPlayer(ps[..|ps| - 1]) + [(ps[|ps| - 1].playerId, |ps[|ps| - 1].rounds|)]
  }

  // Per-player counts

  /** How many entries of `ps` carry id `pid` (at most one in a dict). */
  function Entries(ps: seq<PlayerStats>, pid: string): nat {
    if |ps| == 0 then 0 else Entries(ps[..|ps| - 1], pid) + (if ps[|ps| - 1].playerId == pid then 1 else 0)
  }

  /** The rounds of the entries of `ps` that carry id `pid`. */
  function EntryRounds(ps: seq<PlayerStats>, pid: string): nat {
    if |ps| == 0 then 0
    else EntryRounds(ps[..|ps| - 1], pid) + (if ps[|ps| - 1].playerId == pid then |ps[|ps| - 1].rounds| else 0)
  }

  /** With distinct ids, a game holds a player once or not at all. */
  lemma {:induction false} EntriesOfDict(ps: seq<PlayerStats>, pid: string)
    requires DistinctPlayers(ps)
    ensures Entries(ps, pid) == (if pid in PlayerIds(ps) then 1 else 0)
    decreases |ps|
  {
    if |ps| > 0 {
      var init := ps[..|ps| - 1];
      assert forall i | 0 <= i < |init| :: init[i] == ps[i];
      assert PlayerIds(ps) == PlayerIds(init) + [ps[|ps| - 1].playerId];
      EntriesOfDict(init, pid);
    }
  }

  /** Games (entries) and rounds per id over a list of games. */
  function GamesOf(games: seq<TeamGame>, pid: string): nat {
    if |games| == 0 then 0 else GamesOf(games[..|games| - 1], pid) + Entries(games[|games| - 1].playerStats, pid)
  }

  function RoundsOf(games: seq<TeamGame>, pid: string): nat {
    if |games| == 0 then 0 else RoundsOf(games[..|games| - 1], pid) + EntryRounds(games[|games| - 1].playerStats, pid)
  }

  /** With distinct ids in each game, an id's game count is the number of
      games it appears in. */
  lemma {:induction false} GamesOfCountsGames(games: seq<TeamGame>, pid: string)
    requires forall i | 0 <= i < |games| :: DistinctPlayers(games[i].playerStats)
    ensures GamesOf(games, pid) == CountWhere(games, (g: TeamGame) => pid in PlayerIds(g.playerStats))
    decreases |games|
  {
    if |games| > 0 {
      var init := games[..|games| - 1];
      assert forall i | 0 <= i < |init| :: init[i] == games[i];
      GamesOfCountsGames(init, pid);
      EntriesOfDict(games[|games| - 1].playerStats, pid);
    }
  }

  type Counts = Ordered.Dict<string, nat>

  /** `player_game_counts[pid] += 1` and `player_round_counts[pid] += rounds`
      for every entry of one game. */
  function CountPlayers(d: Counts, rounds: map<string, nat>, ps: seq<PlayerStats>): (r: (Counts, map<string, nat>))
    requires d.Valid()
    ensures r.0.Valid()
    ensures forall pid :: GetNat(r.0.table, pid) == GetNat(d.table, pid) + Entries(ps, pid)
    ensures forall pid :: GetNat(r.1, pid) == GetNat(rounds, pid) + EntryRounds(ps, pid)
    ensures forall pid | pid in r.0.table :: pid in d.table || Entries(ps, pid) > 0
  {
    if |ps| == 0 then (d, rounds)
    else
      var (d1, m1) := CountPlayers(d, rounds, ps[..|ps| - 1]);
      var p := ps[|ps| - 1];
      (Ordered.Put(d1, p.playerId, GetNat(d1.table, p.playerId) + 1), AddNat(m1, p.playerId, |p.rounds|))
  }

  /** The loop's state after some games. */
  datatype Scan = Scan(reports: seq<AnomalyReport>, gameCounts: Counts, roundCounts: map<string, nat>)

  /** The counting half of the main loop: every entry of every game adds
      one game and its rounds to its id. */
  function CountGames(games: seq<TeamGame>): (r: (Counts, map<string, nat>))
    ensures r.0.Valid()
    ensures forall pid :: GetNat(r.0.table, pid) == GamesOf(games, pid)
    ensures forall pid :: GetNat(r.1, pid) == RoundsOf(games, pid)
    ensures forall pid | pid in r.0.table :: GamesOf(games, pid) > 0
  {
    if |games| == 0 then (Ordered.Empty(), map[])
    else
      var before := CountGames(games[..|games| - 1]);
      CountPlayers(before.0, before.1, games[|games| - 1].playerStats)
  }

  /** Every player id of every game, in game order and dict order. */
  function SeenIds(games: seq<TeamGame>): seq<string> {
    if |games| == 0 then [] else SeenIds(games[..|games| - 1]) + PlayerIds(games[|games| - 1].playerStats)
  }

  /** Counting one game's entries appends its new ids, in dict order, to the
      first-seen order of the ids before it. */
  lemma {:induction false} CountPlayersOrder(d: Counts, rounds: map<string, nat>, ps: seq<PlayerStats>, xs: seq<string>)
    requires d.Valid() && d.keys == Dedup(xs)
    ensures CountPlayers(d, rounds, ps).0.keys == Dedup(xs + PlayerIds(ps))
    decreases |ps|
  {
    if |ps| == 0 {
      assert xs + PlayerIds(ps) == xs;
    } else {
      var init := ps[..|ps| - 1];
      var id := ps[|ps| - 1].playerId;
      CountPlayersOrder(d, rounds, init, xs);
      assert PlayerIds(ps) == PlayerIds(init) + [id];
      assert xs + PlayerIds(ps) == (xs + PlayerIds(init)) + [id];
      DedupSnoc(xs + PlayerIds(init), id);
    }
  }

  /** `player_game_counts` lists the ids in the order they were first seen. */
  lemma {:induction false} CountGamesOrder(games: seq<TeamGame>)
    ensures CountGames(games).0.keys == Dedup(SeenIds(games))
    decreases |games|
  {
    if |games| > 0 {
      var init := games[..|games| - 1];
      CountGamesOrder(init);
      var before := CountGames(init);
      CountPlayersOrder(before.0, before.1, games[|games| - 1].playerStats, SeenIds(init));
    }
  }

  /** The reporting half of the main loop: a game with anomalies appends its
      report under its position in the input. */
  function ReportGames(games: seq<TeamGame>, me: Option<string>): (rs: seq<AnomalyReport>)
    ensures forall k | 0 <= k < |rs| :: rs[k].index < |games|
    ensures forall k, l | 0 <= k < l < |rs| :: rs[k].index < rs[l].index
  {
    if |games| == 0 then []
    else
      var n := |games| - 1;
      var before := ReportGames(games[..n], me);
      var g := games[n];
      var found := GameAnomalies(g, me);
      if |found| > 0 then
        var rs := before + [AnomalyReport(g.gameId, n, PlayerIds(g.playerStats), RoundsPerPlayer(g.playerStats), found)];
        assert forall k | 0 <= k < |before| :: rs[k] == before[k] && rs[k].index < n;
        rs
      else before
  }

  /** The main loop of `find_anomalous_games`, which counts and reports in
      one pass over the games. */
  function ScanGames(games: seq<TeamGame>, me: Option<string>): (s: Scan)
    ensures s.gameCounts.Valid()
    ensures forall pid :: GetNat(s.gameCounts.table, pid) == GamesOf(games, pid)
    ensures forall pid :: GetNat(s.roundCounts, pid) == RoundsOf(games, pid)
    ensures forall pid | pid in s.gameCounts.table :: GamesOf(games, pid) > 0
    ensures forall k | 0 <= k < |s.reports| :: s.reports[k].index < |games|
    ensures forall k, l | 0 <= k < l < |s.reports| :: s.reports[k].index < s.reports[l].index
  {
    var counts := CountGames(games);
    Scan(ReportGames(games, me), counts.0, counts.1)
  }

  /** One more game adds its report when it has anomalies. */
  lemma ScanStep(games: seq<TeamGame>, me: Option<string>)
    requires |games| > 0
    ensures var n := |games| - 1;
      var g := games[n];
      var found := GameAnomalies(g, me);
      ScanGames(games, me).reports == ScanGames(games[..n], me).reports
        + (if |found| > 0 then [AnomalyReport(g.gameId, n, PlayerIds(g.playerStats), RoundsPerPlayer(g.playerStats), found)] else [])
  {
  }

  /** One more game keeps the earlier reports in place. */
  lemma ScanKeepsReports(games: seq<TeamGame>, me: Option<string>)
    requires |games| > 0
    ensures var rs, before := ScanGames(games, me).reports, ScanGames(games[..|games| - 1], me).reports;
      |before| <= |rs| && forall k | 0 <= k < |before| :: rs[k] == before[k]
  {
    ScanStep(games, me);
  }

  /** Every report is of an anomalous game, under its own index, with its
      own player ids, rounds per player and anomalies. */
  lemma {:induction false} ReportsMatchGames(games: seq<TeamGame>, me: Option<string>)
    ensures var rs := ScanGames(games, me).reports;
      forall k | 0 <= k < |rs| ::
        rs[k].anomalies == GameAnomalies(games[rs[k].index], me) && |rs[k].anomalies| > 0
        && rs[k].gameId == games[rs[k].index].gameId
        && rs[k].players == PlayerIds(games[rs[k].index].playerStats)
        && rs[k].roundsPerPlayer == RoundsPerPlayer(games[rs[k].index].playerStats)
    decreases |games|
  {
    if |games| > 0 {
      var n := |games| - 1;
      var init := games[..n];
      ReportsMatchGames(init, me);
      ScanKeepsReports(games, me);
      var rs := ScanGames(games, me).reports;
      var before := ScanGames(init, me).reports;
      forall k | 0 <= k < |rs|
        ensures rs[k].anomalies == GameAnomalies(games[rs[k].index], me) && |rs[k].anomalies| > 0
          && rs[k].gameId == games[rs[k].index].gameId
          && rs[k].players == PlayerIds(games[rs[k].index].playerStats)
          && rs[k].roundsPerPlayer == RoundsPerPlayer(games[rs[k].index].playerStats)
      {
        if k < |before| {
          assert rs[k] == before[k];
          assert games[before[k].index] == init[before[k].index];
        } else {
          ScanStep(games, me);
        }
      }
    }
  }

  /** Every anomalous game is reported. */
  lemma {:induction false} AnomalousGamesReported(games: seq<TeamGame>, me: Option<string>, i: nat)
    requires i < |games| && |GameAnomalies(games[i], me)| > 0
    ensures exists k | 0 <= k < |ScanGames(games, me).reports| :: ScanGames(games, me).reports[k].index == i
    decreases |games|
  {
    var n := |games| - 1;
    var init := games[..n];
    var rs := ScanGames(games, me).reports;
    if i == n {
      ScanStep(games, me);
      assert rs[|rs| - 1].index == n;
    } else {
      assert init[i] == games[i];
      AnomalousGamesReported(init, me, i);
      var before := ScanGames(init, me).reports;
      var k :| 0 <= k < |before| && before[k].index == i;
      ScanKeepsReports(games, me);
      assert rs[k] == before[k];
    }
  }

  /** `sorted(player_game_counts.items(), key=count, reverse=True)`. */
  function SortedPlayers(d: Counts): (r: seq<(string, nat)>)
    requires d.Valid()
    ensures multiset(r) == multiset(Ordered.Items(d))
    ensures Ranking.NonIncreasing(r, (x: (string, nat)) => x.1 as real)
  {
    Ranking.SortDesc(Ordered.Items(d), (x: (string, nat)) => x.1 as real)
  }

  /** Players seen in at most this many games are listed as suspicious. */
  const FewGames: nat := 5

  /** `[(pid, count) for pid, count in sorted_players if count <= 5]`. */
  function LowGamePlayers(sorted: seq<(string, nat)>): (r: seq<(string, nat)>)
    ensures forall x :: x in r <==> x in sorted && x.1 <= FewGames
    ensures Ranking.Subsequence(r, sorted)
  {
    Ranking.FilterIsSubsequence(sorted, (x: (string, nat)) => x.1 <= FewGames);
    Ranking.Filter(sorted, (x: (string, nat)) => x.1 <= FewGames)
  }

  /** `find_anomalous_games`: the reports of the anomalous games, in game
      order, and `player_game_counts`, which holds every id seen with the
      number of entries it has, keyed in first-seen order. */
  function FindAnomalousGames(games: seq<TeamGame>, me: Option<string>): (r: (seq<AnomalyReport>, Counts))
    ensures forall k | 0 <= k < |r.0| ::
      && r.0[k].index < |games|
      && r.0[k].gameId == games[r.0[k].index].gameId
      && r.0[k].players == PlayerIds(games[r.0[k].index].playerStats)
      && r.0[k].roundsPerPlayer == RoundsPerPlayer(games[r.0[k].index].playerStats)
      && r.0[k].anomalies == GameAnomalies(games[r.0[k].index], me) && |r.0[k].anomalies| > 0
    ensures forall k, l | 0 <= k < l < |r.0| :: r.0[k].index < r.0[l].index
    ensures forall i | 0 <= i < |games| && |GameAnomalies(games[i], me)| > 0 ::
      exists k | 0 <= k < |r.0| :: r.0[k].index == i
    ensures r.1.Valid()
    ensures r.1.keys == Dedup(SeenIds(games))
    ensures forall pid :: GetNat(r.1.table, pid) == GamesOf(games, pid)
  {
    var s := ScanGames(games, me);
    ReportsMatchGames(games, me);
    CountGamesOrder(games);
    forall i | 0 <= i < |games| && |GameAnomalies(games[i], me)| > 0
      ensures exists k | 0 <= k < |s.reports| :: s.reports[k].index == i
    {
      AnomalousGamesReported(games, me, i);
    }
    (s.reports, s.gameCounts)
  }

  /** The printed ranking of the returned counts lists every seen id once,
      with its game count, and the low list exactly those seen in five games
      or fewer. */
  lemma RankedCounts(games: seq<TeamGame>, me: Option<string>, pid: string, count: nat)
    ensures var sorted := SortedPlayers(FindAnomalousGames(games, me).1);
      (pid, count) in sorted <==> GamesOf(games, pid) > 0 && count == GamesOf(games, pid)
    ensures var low := LowGamePlayers(SortedPlayers(FindAnomalousGames(games, me).1));
      (pid, count) in low <==> GamesOf(games, pid) > 0 && count == GamesOf(games, pid) && count <= FewGames
  {
    var d := FindAnomalousGames(games, me).1;
    var sorted := SortedPlayers(d);
    Ordered.InItems(d, pid, count);
    assert (pid, count) in sorted <==> (pid, count) in multiset(sorted);
    assert (pid, count) in Ordered.Items(d) <==> (pid, count) in multiset(Ordered.Items(d));
    assert GetNat(d.table, pid) == GamesOf(games, pid);
  }

}
