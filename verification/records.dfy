/** The normalised game records the aggregation engine consumes, and the
    game-level outcome rules shared by both entry points.

    A team game is what `fetch_team_duels` stores (geoguessr/fetch_games.py,
    lines 162-168). The solo game shape is the one the tests build
    (tests/test_process_stats.py, lines 73-117): the solo normaliser is not
    part of this model. Python dicts keyed by player id are sequences here,
    in insertion order. */
module Records {
  import opened Common

  /** Health a side starts with; losing all of it is the only way to lose. */
  const StartingHealth: int := 6000

  /** The maximum round score. */
  const FiveK: int := 5000

  predicate IsFiveK(score: int) {
    score == FiveK
  }

  /** Default map diagonal in metres, the distance of a missing guess. */
  const DefaultMapSize: real := 14916862.0

  /** One guess of one player. `time` is the seconds from round start to the
      guess; `country` is the panorama's country code, when known. */
  datatype Guess = Guess(
    roundNumber: int,
    distance: real,
    score: int,
    time: Option<real>,
    country: Option<string>,
    lat: real,
    lng: real)

  /** One `playerStats` entry of a team game. */
  datatype PlayerStats = PlayerStats(playerId: string, distance: real, score: int, rounds: seq<Guess>)

  /** One `roundStats` entry of a team game. */
  datatype RoundStat = RoundStat(
    roundNumber: int,
    totalDistance: real,
    totalScore: int,
    totalHealthChange: int,
    countries: seq<string>,
    enemyBestScore: int)

  /** `teamStats`; `scoreDiff` is optional because the engine reads it with a
      default of 0. */
  datatype TeamStats = TeamStats(
    totalDistance: real,
    totalScore: int,
    totalRounds: nat,
    totalHealthChange: int,
    scoreDiff: Option<int>)

  datatype TeamGame = TeamGame(
    gameId: string,
    teamId: string,
    teamStats: TeamStats,
    playerStats: seq<PlayerStats>,
    roundStats: seq<RoundStat>)

  /** One `roundStats` entry of a solo duel. */
  datatype DuelRoundStat = DuelRoundStat(
    roundNumber: int,
    enemyScore: int,
    totalHealthChange: int,
    country: Option<string>)

  datatype DuelPlayer = DuelPlayer(totalScore: int, rounds: seq<Guess>)

  datatype DuelGame = DuelGame(gameId: string, playerStats: DuelPlayer, roundStats: seq<DuelRoundStat>)

  /** `list(playerStats.keys())`. */
  function PlayerIds(ps: seq<PlayerStats>): (r: seq<string>)
    ensures |r| == |ps|
    ensures forall i | 0 <= i < |ps| :: r[i] == ps[i].playerId
  {
    if |ps| == 0 then [] else PlayerIds(ps[..|ps| - 1]) + [ps[|ps| - 1].playerId]
  }

  /** The keys of a dict are distinct. */
  predicate DistinctPlayers(ps: seq<PlayerStats>) {
    forall i, j | 0 <= i < j < |ps| :: ps[i].playerId != ps[j].playerId
  }

  /** The position of the last element whose key is `k`, or -1 when there
      is none. */
  function LastWith<T, K(==)>(s: seq<T>, key: T -> K, k: K): (i: int)
    ensures -1 <= i < |s|
    ensures i == -1 <==> forall j | 0 <= j < |s| :: key(s[j]) != k
    ensures i >= 0 ==> key(s[i]) == k && forall j | i < j < |s| :: key(s[j]) != k
  {
    if |s| == 0 then -1
    else if key(s[|s| - 1]) == k then |s| - 1
    else LastWith(s[..|s| - 1], key, k)
  }

  /** `{r["roundNumber"]: r for r in rounds}.get(rn)`: the last guess with that
      round number wins, as in a dict comprehension. */
  function FindGuess(rounds: seq<Guess>, rn: int): (r: Option<Guess>)
    ensures r.None? <==> forall i | 0 <= i < |rounds| :: rounds[i].roundNumber != rn
    ensures r.Some? ==> exists i | 0 <= i < |rounds| ::
      rounds[i] == r.value && r.value.roundNumber == rn
      && forall j | i < j < |rounds| :: rounds[j].roundNumber != rn
  {
    var i := LastWith(rounds, (g: Guess) => g.roundNumber, rn);
    if i < 0 then None else Some(rounds[i])
  }

  /** The same lookup over a solo game's `roundStats`. */
  function FindDuelRound(rounds: seq<DuelRoundStat>, rn: int): (r: Option<DuelRoundStat>)
    ensures r.None? <==> forall i | 0 <= i < |rounds| :: rounds[i].roundNumber != rn
    ensures r.Some? ==> exists i | 0 <= i < |rounds| ::
      rounds[i] == r.value && r.value.roundNumber == rn
      && forall j | i < j < |rounds| :: rounds[j].roundNumber != rn
  {
    var i := LastWith(rounds, (s: DuelRoundStat) => s.roundNumber, rn);
    if i < 0 then None else Some(rounds[i])
  }

  // Game outcome rules (geoguessr/process_stats.py, lines 54-69 and 292-307)

  /** A game is won unless the whole health pool was lost. */
  predicate Won(healthChange: int) {
    healthChange > -StartingHealth
  }

  predicate Lost(healthChange: int) {
    healthChange == -StartingHealth
  }

  /** Lost on health while winning on points. */
  predicate MultiMerchant(healthChange: int, scoreDiff: int) {
    Lost(healthChange) && scoreDiff > 0
  }

  /** Won on health while losing on points. */
  predicate ReverseMerchant(healthChange: int, scoreDiff: int) {
    Won(healthChange) && scoreDiff < 0
  }

  /** The game-level counters both aggregations keep: games, wins, rounds,
      and the two merchant kinds. */
  datatype Counters = Counters(games: nat, wins: nat, rounds: int, multi: nat, reverse: nat)

  datatype MerchantStats = MerchantStats(multiMerchant: nat, reverseMerchant: nat)

  /** The two merchant kinds never describe the same game, and a multi
      merchant is always a lost game. */
  lemma MerchantsExclusive(healthChange: int, scoreDiff: int)
    ensures !(MultiMerchant(healthChange, scoreDiff) && ReverseMerchant(healthChange, scoreDiff))
    ensures MultiMerchant(healthChange, scoreDiff) ==> !Won(healthChange)
  {
  }

  // Game-level reads shared by the team aggregations

  /** The round count of a game: the last `roundStats` entry's number. */
  function LastRound(g: TeamGame): int {
    if |g.roundStats| == 0 then 0 else g.roundStats[|g.roundStats| - 1].roundNumber
  }

  predicate WonGame(g: TeamGame) {
    Won(g.teamStats.totalHealthChange)
  }

  /** The shape the Python indexes without raising: two players and at
      least one `roundStats` entry. */
  predicate Shaped(g: TeamGame) {
    |g.playerStats| >= 2 && |g.roundStats| >= 1
  }

  /** `roundStats` holds round `i + 1` at index `i`, as the server sends it. */
  predicate Aligned(g: TeamGame) {
    forall i | 0 <= i < |g.roundStats| :: g.roundStats[i].roundNumber == i + 1
  }

  /** Sum of the games' round counts. */
  function RoundsPlayed(gs: seq<TeamGame>): int {
    if |gs| == 0 then 0 else RoundsPlayed(gs[..|gs| - 1]) + LastRound(gs[|gs| - 1])
  }
}
