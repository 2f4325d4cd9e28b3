/** The stored-games cleanup (cleanup_anomalous_games.py, lines 14-48,
    `cleanup_games`): every game that is not a standard two-player team game
    in which both players played is moved to the removed list, with the
    first reason that applies. File loading, the backup copy and the
    printed summary are not part of this model. */
module Cleanup {
  import opened Common
  import opened Records
  import Ranking

  /** Why a game was removed: the wrong number of players, or the first
      player with no rounds. */
  datatype Reason =
    | PlayerCount(count: nat)
    | ZeroRounds(playerId: string)

  /** One `removed_games` record. */
  datatype Removal = Removal(gameId: string, reason: Reason, players: seq<string>)

  /** The kept games: exactly two players, each with at least one round. */
  predicate Standard(g: TeamGame) {
    |g.playerStats| == 2 && forall i | 0 <= i < |g.playerStats| :: |g.playerStats[i].rounds| > 0
  }

  /** The first player, in dict order, that has no rounds. */
  function FirstIdle(ps: seq<PlayerStats>): (r: Option<string>)
    ensures r.None? <==> forall i | 0 <= i < |ps| :: |ps[i].rounds| > 0
    ensures r.Some? ==> exists i | 0 <= i < |ps| ::
      ps[i].playerId == r.value && |ps[i].rounds| == 0 && forall j | 0 <= j < i :: |ps[j].rounds| > 0
  {
    if |ps| == 0 then None
    else if |ps[0].rounds| == 0 then Some(ps[0].playerId)
    else
      var r := FirstIdle(ps[1..]);
      assert forall i | 1 <= i < |ps| :: ps[1..][i - 1] == ps[i];
      r
  }

  /** The loop body's verdict on one game: the player count is checked
      first, then the players in order. */
  function Verdict(g: TeamGame): (r: Option<Reason>)
    ensures r.None? <==> Standard(g)
    ensures |g.playerStats| != 2 ==> r == Some(PlayerCount(|g.playerStats|))
    ensures |g.playerStats| == 2 && r.Some? ==> r.value.ZeroRounds?
  {
    if |g.playerStats| != 2 then Some(PlayerCount(|g.playerStats|))
    else
      match FirstIdle(g.playerStats)
      case None => None
      case Some(pid) => Some(ZeroRounds(pid))
  }

  /** `cleanup_games`: the valid games and the removal records, both in input
      order. */
  function CleanupGames(games: seq<TeamGame>): (r: (seq<TeamGame>, seq<Removal>))
    ensures |r.0| + |r.1| == |games|
    ensures forall i | 0 <= i < |r.0| :: Standard(r.0[i])
  {
    if |games| == 0 then ([], [])
    else
      var (valid, removed) := CleanupGames(games[..|games| - 1]);
      var g := games[|games| - 1];
      match Verdict(g)
      case None => (valid + [g], removed)
      case Some(why) => (valid, removed + [Removal(g.gameId, why, PlayerIds(g.playerStats))])
  }

  /** The valid games are the standard ones, in input order: an
      order-preserving subsequence of the input. */
  lemma {:induction false} ValidAreStandard(games: seq<TeamGame>)
    ensures CleanupGames(games).0 == Ranking.Filter(games, Standard)
    ensures Ranking.Subsequence(CleanupGames(games).0, games)
    decreases |games|
  {
    if |games| > 0 {
      ValidAreStandard(games[..|games| - 1]);
    }
    Ranking.FilterIsSubsequence(games, Standard);
  }

  /** The removal records name the other games, in input order, each with
      its verdict. */
  lemma {:induction false} RemovedAreTheRest(games: seq<TeamGame>)
    ensures var removed := CleanupGames(games).1;
      |removed| == |Ranking.Filter(games, (g: TeamGame) => !Standard(g))|
      && forall k | 0 <= k < |removed| ::
        var g := Ranking.Filter(games, (g: TeamGame) => !Standard(g))[k];
        removed[k] == Removal(g.gameId, Verdict(g).value, PlayerIds(g.playerStats))
    decreases |games|
  {
    if |games| > 0 {
      RemovedAreTheRest(games[..|games| - 1]);
    }
  }

  /** Cleaning the cleaned list removes nothing. */
  lemma CleanupIdempotent(games: seq<TeamGame>)
    ensures CleanupGames(CleanupGames(games).0) == (CleanupGames(games).0, [])
  {
    StandardKept(CleanupGames(games).0);
  }

  /** A list of standard games passes through unchanged. */
  lemma {:induction false} StandardKept(games: seq<TeamGame>)
    requires forall i | 0 <= i < |games| :: Standard(games[i])
    ensures CleanupGames(games) == (games, [])
    decreases |games|
  {
    if |games| > 0 {
      var init := games[..|games| - 1];
      StandardKept(init);
      assert init + [games[|games| - 1]] == games;
    }
  }

  /** When both players of a two-player game have no rounds, only the first
      is named. */
  lemma FirstIdleNamed(gameId: string, a: PlayerStats, b: PlayerStats)
    requires |a.rounds| == 0 && |b.rounds| == 0
    ensures var g := TeamGame(gameId, "", TeamStats(0.0, 0, 0, 0, None), [a, b], []);
      CleanupGames([g]) == ([], [Removal(gameId, ZeroRounds(a.playerId), [a.playerId, b.playerId])])
  {
    var g := TeamGame(gameId, "", TeamStats(0.0, 0, 0, 0, None), [a, b], []);
    assert [g][..0] == [];
    assert CleanupGames([g][..0]) == ([], []);
    assert FirstIdle([a, b]) == Some(a.playerId);
    assert Verdict(g) == Some(ZeroRounds(a.playerId));
    assert PlayerIds([a, b]) == [a.playerId, b.playerId];
    var rec := Removal(gameId, ZeroRounds(a.playerId), [a.playerId, b.playerId]);
    assert CleanupGames([g]) == ([], [] + [rec]);
    assert [] + [rec] == [rec];
  }
}
