/** The normaliser of team duels (geoguessr/fetch_games.py, lines 66-173,
    `fetch_team_duels`): from the game server's response for one game to
    the `TeamGame` record the aggregation engine folds.

    The HTTP call is replaced by a given `Response` per game id, the
    `calculate_score` formula by the `Scorer` parameter, and ISO timestamps
    by seconds. A game the Python drops, through a `continue` or through an
    exception caught at the end of the loop, is a `Skip` here. */
module TeamNormalize {
  import opened Common
  import opened Records
  import Ordered

  /** `calculate_score(distance)`, geoguessr/utils.py, lines 15-17. */
  type Scorer = real -> int

  /** One guess as the server sends it; `created` is in seconds. */
  datatype ApiGuess = ApiGuess(roundNumber: int, score: Option<int>, distance: real, lat: real, lng: real, created: real)

  datatype ApiPlayer = ApiPlayer(playerId: string, guesses: seq<ApiGuess>)

  /** One entry of a team's `roundResults`. */
  datatype RoundResult = RoundResult(roundNumber: int, healthBefore: Option<int>, healthAfter: Option<int>)

  datatype ApiTeam = ApiTeam(id: string, players: seq<ApiPlayer>, roundResults: seq<RoundResult>)

  /** One entry of the game's `rounds`: its start (seconds) and the
      panorama's country code. */
  datatype ApiRound = ApiRound(startTime: real, countryCode: Option<string>)

  datatype ApiGame = ApiGame(teams: seq<ApiTeam>, rounds: seq<ApiRound>)

  datatype Response = Response(status: int, body: ApiGame)

  /** Why a game produces no record. */
  datatype Skip =
    | BadStatus(status: int)
    | NotOnAnyTeam
    | TeammateMissing
    | NoEnemyTeam
    | RoundOutOfRange(roundNumber: int)

  // Finding the teams

  predicate HasPlayer(t: ApiTeam, id: string) {
    exists p | p in t.players :: p.playerId == id
  }

  /** `next(t for t in teams if any(p["playerId"] == my_id ...), None)`. */
  function MyTeam(teams: seq<ApiTeam>, myId: string): (r: Option<ApiTeam>)
    ensures r.None? <==> forall i | 0 <= i < |teams| :: !HasPlayer(teams[i], myId)
    ensures r.Some? ==> exists i | 0 <= i < |teams| ::
      teams[i] == r.value && HasPlayer(r.value, myId) && forall j | 0 <= j < i :: !HasPlayer(teams[j], myId)
  {
    if |teams| == 0 then None
    else if HasPlayer(teams[0], myId) then Some(teams[0])
    else
      var r := MyTeam(teams[1..], myId);
      assert forall i | 1 <= i < |teams| :: teams[1..][i - 1] == teams[i];
      r
  }

  /** `next(t for t in teams if t["id"] != my_team["id"], None)`. */
  function EnemyTeam(teams: seq<ApiTeam>, myTeamId: string): (r: Option<ApiTeam>)
    ensures r.None? <==> forall i | 0 <= i < |teams| :: teams[i].id == myTeamId
    ensures r.Some? ==> exists i | 0 <= i < |teams| ::
      teams[i] == r.value && r.value.id != myTeamId && forall j | 0 <= j < i :: teams[j].id == myTeamId
  {
    if |teams| == 0 then None
    else if teams[0].id != myTeamId then Some(teams[0])
    else
      var r := EnemyTeam(teams[1..], myTeamId);
      assert forall i | 1 <= i < |teams| :: teams[1..][i - 1] == teams[i];
      r
  }

  /** The teammate filter: a truthy `teammate_id` must be on my team. */
  predicate TeammateOk(my: ApiTeam, teammate: Option<string>) {
    !Truthy(teammate) || HasPlayer(my, teammate.value)
  }

  /** All guesses of a list of players, player by player. */
  function GuessesOf(ps: seq<ApiPlayer>): seq<ApiGuess> {
    if |ps| == 0 then [] else GuessesOf(ps[..|ps| - 1]) + ps[|ps| - 1].guesses
  }

  // Scores

  /** An own guess: a missing score is computed from the distance; a score
      of 0 is kept. */
  function OwnScore(g: ApiGuess, scorer: Scorer): int {
    if g.score.Some? then g.score.value else scorer(g.distance)
  }

  /** An enemy guess: `score or calculate_score(distance)`, so a score of 0
      is recomputed as well. */
  function EnemyScore(g: ApiGuess, scorer: Scorer): int {
    if g.score.Some? && g.score.value != 0 then g.score.value else scorer(g.distance)
  }

  /** The two rules differ exactly on a recorded score of 0. */
  lemma ScoreRules(g: ApiGuess, scorer: Scorer)
    ensures g.score.None? ==> OwnScore(g, scorer) == EnemyScore(g, scorer) == scorer(g.distance)
    ensures g.score == Some(0) ==> OwnScore(g, scorer) == 0 && EnemyScore(g, scorer) == scorer(g.distance)
    ensures g.score.Some? && g.score.value != 0 ==> OwnScore(g, scorer) == EnemyScore(g, scorer) == g.score.value
  {
  }

  /** `enemy_best`: per round number, the running `max(score, best or 0)`. */
  function EnemyBest(gs: seq<ApiGuess>, scorer: Scorer): (r: map<int, int>)
    ensures forall rn :: rn in r <==> exists i | 0 <= i < |gs| :: gs[i].roundNumber == rn
    ensures forall rn | rn in r :: r[rn] >= 0
  {
    if |gs| == 0 then map[]
    else
      var init := gs[..|gs| - 1];
      assert forall i | 0 <= i < |init| :: init[i] == gs[i];
      var m := EnemyBest(init, scorer);
      var g := gs[|gs| - 1];
      m[g.roundNumber := Max(EnemyScore(g, scorer), Get(m, g.roundNumber))]
  }

  /** `enemy_best.get(rn, 0)` is the best enemy score of round `rn`, never
      below 0, and 0 when no enemy guessed that round. */
  lemma {:induction false} EnemyBestIsMax(gs: seq<ApiGuess>, scorer: Scorer, rn: int)
    ensures Get(EnemyBest(gs, scorer), rn) >= 0
    ensures forall i | 0 <= i < |gs| && gs[i].roundNumber == rn :: Get(EnemyBest(gs, scorer), rn) >= EnemyScore(gs[i], scorer)
    ensures Get(EnemyBest(gs, scorer), rn) == 0
      || exists i | 0 <= i < |gs| && gs[i].roundNumber == rn :: Get(EnemyBest(gs, scorer), rn) == EnemyScore(gs[i], scorer)
    ensures (forall i | 0 <= i < |gs| :: gs[i].roundNumber != rn) ==> Get(EnemyBest(gs, scorer), rn) == 0
    decreases |gs|
  {
    if |gs| > 0 {
      var init := gs[..|gs| - 1];
      EnemyBestIsMax(init, scorer, rn);
      assert forall i | 0 <= i < |init| :: init[i] == gs[i];
      var before := Get(EnemyBest(init, scorer), rn);
      if before != 0 && gs[|gs| - 1].roundNumber == rn && Get(EnemyBest(gs, scorer), rn) == before {
        var i :| 0 <= i < |init| && init[i].roundNumber == rn && before == EnemyScore(init[i], scorer);
        assert gs[i] == init[i];
      }
    }
  }

  /** Sum of the enemy's scores under the enemy rule. */
  function EnemyTotal(gs: seq<ApiGuess>, scorer: Scorer): int {
    if |gs| == 0 then 0 else EnemyTotal(gs[..|gs| - 1], scorer) + EnemyScore(gs[|gs| - 1], scorer)
  }

  // Own guesses

  /** One own guess as stored: `game["rounds"][roundNumber - 1]` supplies the
      start time and the country, with Python's negative indexing; an index
      out of range raises, which drops the game. */
  function OwnGuess(g: ApiGuess, rounds: seq<ApiRound>, scorer: Scorer): (r: Option<Guess>)
    ensures r.None? <==> !(-|rounds| <= g.roundNumber - 1 < |rounds|)
    ensures r.Some? ==> r.value.roundNumber == g.roundNumber && r.value.score == OwnScore(g, scorer)
    ensures r.Some? ==> r.value.distance == g.distance && r.value.lat == g.lat && r.value.lng == g.lng
    ensures 1 <= g.roundNumber <= |rounds| ==>
      (r.Some? && r.value.country == rounds[g.roundNumber - 1].countryCode
       && r.value.time == Some(g.created - rounds[g.roundNumber - 1].startTime))
    ensures -|rounds| < g.roundNumber <= 0 ==>
      (r.Some? && r.value.country == rounds[|rounds| + g.roundNumber - 1].countryCode
       && r.value.time == Some(g.created - rounds[|rounds| + g.roundNumber - 1].startTime))
  {
    match PyIndex(rounds, g.roundNumber - 1)
    case None => None
    case Some(info) =>
      Some(Guess(g.roundNumber, g.distance, OwnScore(g, scorer), Some(g.created - info.startTime), info.countryCode, g.lat, g.lng))
  }

  /** A player's guesses converted in order, or `None` at the first one
      whose round does not exist. */
  function OwnGuesses(gs: seq<ApiGuess>, rounds: seq<ApiRound>, scorer: Scorer): (r: Option<seq<Guess>>)
    ensures r.None? <==> exists i | 0 <= i < |gs| :: OwnGuess(gs[i], rounds, scorer).None?
    ensures r.Some? ==> |r.value| == |gs| && forall i | 0 <= i < |gs| :: OwnGuess(gs[i], rounds, scorer) == Some(r.value[i])
  {
    if |gs| == 0 then Some([])
    else
      var init := gs[..|gs| - 1];
      assert forall i | 0 <= i < |init| :: init[i] == gs[i];
      match OwnGuesses(init, rounds, scorer)
      case None => None
      case Some(rs) =>
        match OwnGuess(gs[|gs| - 1], rounds, scorer)
        case None => None
        case Some(x) => Some(rs + [x])
  }

  function ScoreSum(gs: seq<Guess>): int {
    if |gs| == 0 then 0 else ScoreSum(gs[..|gs| - 1]) + gs[|gs| - 1].score
  }

  function DistanceSum(gs: seq<Guess>): real {
    if |gs| == 0 then 0.0 else DistanceSum(gs[..|gs| - 1]) + gs[|gs| - 1].distance
  }

  lemma {:induction false} ScoreSumAppend(a: seq<Guess>, b: seq<Guess>)
    ensures ScoreSum(a + b) == ScoreSum(a) + ScoreSum(b)
    decreases |b|
  {
    if |b| == 0 {
      assert a + b == a;
    } else {
      var init := b[..|b| - 1];
      assert (a + b)[..|a + b| - 1] == a + init;
      ScoreSumAppend(a, init);
    }
  }

  /** Each player's `p_stats`, in team order, or `None` when a guess names a
      round that does not exist. */
  function OwnPlayers(ps: seq<ApiPlayer>, rounds: seq<ApiRound>, scorer: Scorer): (r: Option<seq<PlayerStats>>)
    ensures r.Some? ==> |r.value| == |ps|
    ensures r.Some? ==> forall i | 0 <= i < |ps| ::
      r.value[i].playerId == ps[i].playerId
      && Some(r.value[i].rounds) == OwnGuesses(ps[i].guesses, rounds, scorer)
      && r.value[i].score == ScoreSum(r.value[i].rounds)
      && r.value[i].distance == DistanceSum(r.value[i].rounds)
    ensures r.None? <==> exists i | 0 <= i < |ps| :: OwnGuesses(ps[i].guesses, rounds, scorer).None?
  {
    if |ps| == 0 then Some([])
    else
      var init := ps[..|ps| - 1];
      var p := ps[|ps| - 1];
      assert forall i | 0 <= i < |init| :: init[i] == ps[i];
      match OwnPlayers(init, rounds, scorer)
      case None => None
      case Some(stats) =>
        match OwnGuesses(p.guesses, rounds, scorer)
        case None => None
        case Some(gs) => Some(stats + [PlayerStats(p.playerId, DistanceSum(gs), ScoreSum(gs), gs)])
  }

  /** Every stored guess of every player, in order. */
  function AllRounds(stats: seq<PlayerStats>): seq<Guess> {
    if |stats| == 0 then [] else AllRounds(stats[..|stats| - 1]) + stats[|stats| - 1].rounds
  }

  /** `team_stats["totalScore"]`, accumulated player by player. */
  function TeamScoreTotal(stats: seq<PlayerStats>): int {
    if |stats| == 0 then 0 else TeamScoreTotal(stats[..|stats| - 1]) + stats[|stats| - 1].score
  }

  function TeamDistanceTotal(stats: seq<PlayerStats>): real {
    if |stats| == 0 then 0.0 else TeamDistanceTotal(stats[..|stats| - 1]) + stats[|stats| - 1].distance
  }

  /** `team_stats["totalRounds"]`: the number of guesses, not of rounds. */
  function TeamRoundsTotal(stats: seq<PlayerStats>): nat {
    if |stats| == 0 then 0 else TeamRoundsTotal(stats[..|stats| - 1]) + |stats[|stats| - 1].rounds|
  }

  /** The team's totals are the sum and the count of all stored guesses. */
  lemma {:induction false} TeamTotalsOfGuesses(stats: seq<PlayerStats>)
    requires forall i | 0 <= i < |stats| :: stats[i].score == ScoreSum(stats[i].rounds)
    ensures TeamScoreTotal(stats) == ScoreSum(AllRounds(stats))
    ensures TeamRoundsTotal(stats) == |AllRounds(stats)|
    decreases |stats|
  {
    if |stats| > 0 {
      var init := stats[..|stats| - 1];
      assert forall i | 0 <= i < |init| :: init[i] == stats[i];
      TeamTotalsOfGuesses(init);
      ScoreSumAppend(AllRounds(init), stats[|stats| - 1].rounds);
    }
  }

  /** The last stats listed under `id`, if any. */
  function LastOf(stats: seq<PlayerStats>, id: string): (r: Option<PlayerStats>)
    ensures r.None? <==> forall i | 0 <= i < |stats| :: stats[i].playerId != id
    ensures r.Some? ==> exists i | 0 <= i < |stats| ::
      stats[i] == r.value && r.value.playerId == id && forall j | i < j < |stats| :: stats[j].playerId != id
  {
    var i := LastWith(stats, (p: PlayerStats) => p.playerId, id);
    if i < 0 then None else Some(stats[i])
  }

  /** The `player_stats` dict: `player_stats[playerId] = p_stats` in team
      order, so a repeated id keeps its first position and its last stats. */
  function PlayerDict(stats: seq<PlayerStats>): (d: Ordered.Dict<string, PlayerStats>)
    ensures d.Valid()
    ensures forall k | k in d.table :: d.table[k].playerId == k
    ensures d.keys == Dedup(PlayerIds(stats))
    ensures forall k | k in d.table :: LastOf(stats, k) == Some(d.table[k])
  {
    if |stats| == 0 then Ordered.Empty()
    else
      var init := stats[..|stats| - 1];
      var p := stats[|stats| - 1];
      assert PlayerIds(stats) == PlayerIds(init) + [p.playerId];
      forall k ensures LastOf(stats, k) == if k == p.playerId then Some(p) else LastOf(init, k) {
        LastOfSnoc(stats, k);
      }
      Ordered.Put(PlayerDict(init), p.playerId, p)
  }

  /** The last stats under `id` are the final entry when it carries `id`,
      and otherwise the last ones before it. */
  lemma LastOfSnoc(stats: seq<PlayerStats>, id: string)
    requires |stats| > 0
    ensures var init, p := stats[..|stats| - 1], stats[|stats| - 1];
      LastOf(stats, id) == if p.playerId == id then Some(p) else LastOf(init, id)
  {
    var init := stats[..|stats| - 1];
    assert LastWith(stats, (p: PlayerStats) => p.playerId, id)
        == if stats[|stats| - 1].playerId == id then |stats| - 1
           else LastWith(init, (p: PlayerStats) => p.playerId, id);
    if stats[|stats| - 1].playerId != id {
      var i := LastWith(init, (p: PlayerStats) => p.playerId, id);
      if i >= 0 {
        assert init[i] == stats[i];
      }
    }
  }

  /** The dict's values in iteration order. */
  function Values(items: seq<(string, PlayerStats)>): (r: seq<PlayerStats>)
    ensures |r| == |items|
    ensures forall i | 0 <= i < |items| :: r[i] == items[i].1
  {
    if |items| == 0 then [] else Values(items[..|items| - 1]) + [items[|items| - 1].1]
  }

  /** The stored `playerStats`: one entry per distinct id, in order of first
      appearance. */
  function PlayerEntries(stats: seq<PlayerStats>): (r: seq<PlayerStats>)
    ensures DistinctPlayers(r)
    ensures PlayerIds(r) == Dedup(PlayerIds(stats))
    ensures forall i | 0 <= i < |r| :: LastOf(stats, r[i].playerId) == Some(r[i])
  {
    var d := PlayerDict(stats);
    ValuesFollowKeys(d);
    Values(Ordered.Items(d))
  }

  /** A dict whose entries sit under their own ids lists its values with
      exactly its keys, in order. */
  lemma ValuesFollowKeys(d: Ordered.Dict<string, PlayerStats>)
    requires d.Valid()
    requires forall k | k in d.table :: d.table[k].playerId == k
    ensures PlayerIds(Values(Ordered.Items(d))) == d.keys
    ensures DistinctPlayers(Values(Ordered.Items(d)))
  {
    Ordered.KeysInTable(d);
    var items := Ordered.Items(d);
    var r := Values(items);
    forall i | 0 <= i < |r|
      ensures r[i].playerId == d.keys[i]
    {
      assert r[i] == d.table[d.keys[i]];
    }
  }

  // The per-round table

  /** One `rounds_map` entry; `countries` stands for the set, in order of
      first insertion. */
  datatype RoundAcc = RoundAcc(totalDistance: real, totalScore: int, totalHealthChange: int, countries: seq<string>)

  type RoundTable = Ordered.Dict<int, RoundAcc>

  function NewRound(): RoundAcc {
    RoundAcc(0.0, 0, 0, [])
  }

  /** `rounds_map.setdefault(rn, {...})`. */
  function Entry(d: RoundTable, rn: int): RoundAcc {
    if rn in d.table then d.table[rn] else NewRound()
  }

  /** `set.add`. */
  function AddCountry(cs: seq<string>, c: string): (r: seq<string>)
    ensures forall x :: x in r <==> x in cs || x == c
    ensures Distinct(cs) ==> Distinct(r)
  {
    if c in cs then cs else cs + [c]
  }

  predicate Distinct(cs: seq<string>) {
    forall i, j | 0 <= i < j < |cs| :: cs[i] != cs[j]
  }

  /** What one own guess adds to its round's entry. */
  function Credit(e: RoundAcc, g: Guess): RoundAcc {
    var cs := if Truthy(g.country) then AddCountry(e.countries, g.country.value) else e.countries;
    RoundAcc(e.totalDistance + g.distance, e.totalScore + g.score, e.totalHealthChange, cs)
  }

  /** An own guess adds its distance and score to its round, and its
      round's country when that is truthy. */
  function AddGuessRound(d: RoundTable, g: Guess): (r: RoundTable)
    requires d.Valid()
    ensures r.Valid()
  {
    Ordered.Put(d, g.roundNumber, Credit(Entry(d, g.roundNumber), g))
  }

  function GuessRounds(gs: seq<Guess>): (r: RoundTable)
    ensures r.Valid()
  {
    if |gs| == 0 then Ordered.Empty() else AddGuessRound(GuessRounds(gs[..|gs| - 1]), gs[|gs| - 1])
  }

  /** The guesses' round numbers, in order. */
  function GuessRoundNumbers(gs: seq<Guess>): (r: seq<int>)
    ensures |r| == |gs|
    ensures forall i | 0 <= i < |gs| :: r[i] == gs[i].roundNumber
  {
    if |gs| == 0 then [] else GuessRoundNumbers(gs[..|gs| - 1]) + [gs[|gs| - 1].roundNumber]
  }

  /** The own score of round `rn`, summed over the guesses that name it. */
  function ScoreAt(gs: seq<Guess>, rn: int): int {
    if |gs| == 0 then 0
    else ScoreAt(gs[..|gs| - 1], rn) + (if gs[|gs| - 1].roundNumber == rn then gs[|gs| - 1].score else 0)
  }

  /** The own distance of round `rn`, summed over the guesses that name it. */
  function DistanceAt(gs: seq<Guess>, rn: int): real {
    if |gs| == 0 then 0.0
    else DistanceAt(gs[..|gs| - 1], rn) + (if gs[|gs| - 1].roundNumber == rn then gs[|gs| - 1].distance else 0.0)
  }

  /** The truthy countries of the guesses naming round `rn`, each once, in
      order of first appearance. */
  function CountriesAt(gs: seq<Guess>, rn: int): (r: seq<string>)
    ensures Distinct(r)
    ensures forall c :: c in r <==>
      exists i | 0 <= i < |gs| :: gs[i].roundNumber == rn && Truthy(gs[i].country) && gs[i].country.value == c
  {
    if |gs| == 0 then []
    else
      var init := gs[..|gs| - 1];
      var g := gs[|gs| - 1];
      assert forall i | 0 <= i < |init| :: init[i] == gs[i];
      var cs := CountriesAt(init, rn);
      if g.roundNumber == rn && Truthy(g.country) then AddCountry(cs, g.country.value) else cs
  }

  /** After the guesses, the table holds exactly the guessed rounds, each with
      the sums of its distances and scores, the set of its countries and no
      health change yet; the rounds are in order of first guess. */
  lemma GuessRoundsScores(gs: seq<Guess>, rn: int)
    ensures rn in GuessRounds(gs).table <==> exists i | 0 <= i < |gs| :: gs[i].roundNumber == rn
    ensures rn in GuessRounds(gs).table ==>
      GuessRounds(gs).table[rn] == RoundAcc(DistanceAt(gs, rn), ScoreAt(gs, rn), 0, CountriesAt(gs, rn))
    ensures rn !in GuessRounds(gs).table ==> ScoreAt(gs, rn) == 0
    ensures GuessRounds(gs).keys == Dedup(GuessRoundNumbers(gs))
  {
    GuessRoundsKeys(gs, rn);
    GuessedIff(gs, rn);
    GuessRoundsTotals(gs, rn);
    GuessRoundsOrder(gs);
  }

  /** Some guess names round `rn`. */
  predicate Guessed(gs: seq<Guess>, rn: int) {
    |gs| > 0 && (Guessed(gs[..|gs| - 1], rn) || gs[|gs| - 1].roundNumber == rn)
  }

  lemma {:induction false} GuessedIff(gs: seq<Guess>, rn: int)
    ensures Guessed(gs, rn) <==> exists i | 0 <= i < |gs| :: gs[i].roundNumber == rn
    decreases |gs|
  {
    if |gs| > 0 {
      var init := gs[..|gs| - 1];
      GuessedIff(init, rn);
      if exists i | 0 <= i < |gs| :: gs[i].roundNumber == rn {
        var i :| 0 <= i < |gs| && gs[i].roundNumber == rn;
        if i < |init| {
          assert init[i] == gs[i];
        }
      }
      if exists i | 0 <= i < |init| :: init[i].roundNumber == rn {
        var i :| 0 <= i < |init| && init[i].roundNumber == rn;
        assert gs[i] == init[i];
      }
    }
  }

  /** The table's rounds are the guessed ones. */
  lemma {:induction false} GuessRoundsKeys(gs: seq<Guess>, rn: int)
    ensures rn in GuessRounds(gs).table <==> Guessed(gs, rn)
    decreases |gs|
  {
    if |gs| > 0 {
      var init := gs[..|gs| - 1];
      GuessRoundsKeys(init, rn);
      AddGuessRoundAt(GuessRounds(init), gs[|gs| - 1], rn);
      assert GuessRounds(gs) == AddGuessRound(GuessRounds(init), gs[|gs| - 1]);
    }
  }

  /** The table lists its rounds in order of their first guess. */
  lemma {:induction false} GuessRoundsOrder(gs: seq<Guess>)
    ensures GuessRounds(gs).keys == Dedup(GuessRoundNumbers(gs))
    decreases |gs|
  {
    if |gs| > 0 {
      var init := gs[..|gs| - 1];
      var g := gs[|gs| - 1];
      GuessRoundsOrder(init);
      assert GuessRoundNumbers(gs) == GuessRoundNumbers(init) + [g.roundNumber];
      DedupSnoc(GuessRoundNumbers(init), g.roundNumber);
      assert GuessRounds(gs) == AddGuessRound(GuessRounds(init), g);
    }
  }

  /** Each round's entry sums its guesses' distances and scores and collects
      their countries; a round nobody guessed has nothing to sum. */
  lemma {:induction false} GuessRoundsTotals(gs: seq<Guess>, rn: int)
    ensures rn in GuessRounds(gs).table ==>
      GuessRounds(gs).table[rn] == RoundAcc(DistanceAt(gs, rn), ScoreAt(gs, rn), 0, CountriesAt(gs, rn))
    ensures rn !in GuessRounds(gs).table ==>
      ScoreAt(gs, rn) == 0 && DistanceAt(gs, rn) == 0.0 && CountriesAt(gs, rn) == []
    decreases |gs|
  {
    if |gs| > 0 {
      var init := gs[..|gs| - 1];
      var g := gs[|gs| - 1];
      GuessRoundsTotals(init, rn);
      AddGuessRoundAt(GuessRounds(init), g, rn);
      assert GuessRounds(gs) == AddGuessRound(GuessRounds(init), g);
      if g.roundNumber == rn {
        assert DistanceAt(gs, rn) == DistanceAt(init, rn) + g.distance;
        assert ScoreAt(gs, rn) == ScoreAt(init, rn) + g.score;
        assert CountriesAt(gs, rn)
            == if Truthy(g.country) then AddCountry(CountriesAt(init, rn), g.country.value) else CountriesAt(init, rn);
      } else {
        assert DistanceAt(gs, rn) == DistanceAt(init, rn);
        assert ScoreAt(gs, rn) == ScoreAt(init, rn);
        assert CountriesAt(gs, rn) == CountriesAt(init, rn);
      }
    }
  }

  /** One guess touches only its own round: it creates the entry when
      missing and credits the guess to it. */
  lemma AddGuessRoundAt(d: RoundTable, g: Guess, rn: int)
    requires d.Valid()
    ensures var r := AddGuessRound(d, g);
      && (rn in r.table <==> rn in d.table || g.roundNumber == rn)
      && (rn in r.table ==> r.table[rn] == if g.roundNumber == rn then Credit(Entry(d, rn), g) else Entry(d, rn))
  {
  }

  /** The health delta of a round result with both values present. */
  function Delta(rr: RoundResult): Option<int> {
    if rr.healthBefore.Some? && rr.healthAfter.Some? then Some(rr.healthAfter.value - rr.healthBefore.value) else None
  }

  /** A complete round result sets (not adds) its round's health change. */
  function AddHealthRound(d: RoundTable, rr: RoundResult): (r: RoundTable)
    requires d.Valid()
    ensures r.Valid()
  {
    match Delta(rr)
    case None => d
    case Some(delta) =>
      var e := Entry(d, rr.roundNumber);
      Ordered.Put(d, rr.roundNumber, e.(totalHealthChange := delta))
  }

  function HealthRounds(d: RoundTable, rrs: seq<RoundResult>): (r: RoundTable)
    requires d.Valid()
    ensures r.Valid()
  {
    if |rrs| == 0 then d else AddHealthRound(HealthRounds(d, rrs[..|rrs| - 1]), rrs[|rrs| - 1])
  }

  /** `team_stats["totalHealthChange"]`: the sum of the complete deltas. */
  function HealthTotal(rrs: seq<RoundResult>): int {
    if |rrs| == 0 then 0
    else HealthTotal(rrs[..|rrs| - 1]) + Delta(rrs[|rrs| - 1]).GetOr(0)
  }

  /** The delta of the last complete result for round `rn`, if any. */
  function LastDelta(rrs: seq<RoundResult>, rn: int): (r: Option<int>)
    ensures r.None? <==> forall i | 0 <= i < |rrs| :: rrs[i].roundNumber == rn ==> Delta(rrs[i]).None?
  {
    if |rrs| == 0 then None
    else
      var init := rrs[..|rrs| - 1];
      var last := rrs[|rrs| - 1];
      assert forall i | 0 <= i < |init| :: init[i] == rrs[i];
      if last.roundNumber == rn && Delta(last).Some? then Delta(last) else LastDelta(init, rn)
  }

  /** Round numbers of the complete round results, in order. */
  function DeltaRoundNumbers(rrs: seq<RoundResult>): (r: seq<int>)
    ensures forall rn :: rn in r <==> LastDelta(rrs, rn).Some?
  {
    if |rrs| == 0 then []
    else
      var last := rrs[|rrs| - 1];
      DeltaRoundNumbers(rrs[..|rrs| - 1]) + (if Delta(last).Some? then [last.roundNumber] else [])
  }

  /** The health pass adds the rounds with a complete result, after the
      rounds already listed, and leaves each round as it was except for its
      health change, which becomes the delta of its last complete result. */
  lemma {:induction false} HealthRoundsEffect(d: RoundTable, rrs: seq<RoundResult>, rn: int)
    requires d.Valid()
    ensures rn in HealthRounds(d, rrs).table <==> rn in d.table || LastDelta(rrs, rn).Some?
    ensures rn in HealthRounds(d, rrs).table ==>
      HealthRounds(d, rrs).table[rn]
        == Entry(d, rn).(totalHealthChange := LastDelta(rrs, rn).GetOr(Entry(d, rn).totalHealthChange))
    decreases |rrs|
  {
    if |rrs| > 0 {
      HealthRoundsEffect(d, rrs[..|rrs| - 1], rn);
    }
  }

  /** The rounds the health pass adds come after the guessed ones, in order
      of their first complete result. */
  lemma {:induction false} HealthRoundsOrder(d: RoundTable, xs: seq<int>, rrs: seq<RoundResult>)
    requires d.Valid() && d.keys == Dedup(xs)
    ensures HealthRounds(d, rrs).keys == Dedup(xs + DeltaRoundNumbers(rrs))
    decreases |rrs|
  {
    if |rrs| == 0 {
      assert xs + DeltaRoundNumbers(rrs) == xs;
    } else {
      var init := rrs[..|rrs| - 1];
      var last := rrs[|rrs| - 1];
      HealthRoundsOrder(d, xs, init);
      if Delta(last).Some? {
        assert xs + DeltaRoundNumbers(rrs) == (xs + DeltaRoundNumbers(init)) + [last.roundNumber];
        DedupSnoc(xs + DeltaRoundNumbers(init), last.roundNumber);
      } else {
        assert DeltaRoundNumbers(rrs) == DeltaRoundNumbers(init);
      }
    }
  }

  /** The `round_stats` list, in `rounds_map` order. */
  function RoundStats(items: seq<(int, RoundAcc)>, best: map<int, int>): (r: seq<RoundStat>)
    ensures |r| == |items|
    ensures forall i | 0 <= i < |items| ::
      r[i].roundNumber == items[i].0 && r[i].totalScore == items[i].1.totalScore
      && r[i].totalDistance == items[i].1.totalDistance && r[i].countries == items[i].1.countries
      && r[i].totalHealthChange == items[i].1.totalHealthChange
      && r[i].enemyBestScore == Get(best, items[i].0)
  {
    if |items| == 0 then []
    else
      var (rn, e) := items[|items| - 1];
      RoundStats(items[..|items| - 1], best)
        + [RoundStat(rn, e.totalDistance, e.totalScore, e.totalHealthChange, e.countries, Get(best, rn))]
  }

  // One game

  /** The body of the loop for one game id. */
  function NormalizeGame(gameId: string, resp: Response, myId: string, teammate: Option<string>, scorer: Scorer): (r: Result<TeamGame, Skip>)
    ensures resp.status != 200 ==> r == Err(BadStatus(resp.status))
    ensures resp.status == 200 && MyTeam(resp.body.teams, myId).None? ==> r == Err(NotOnAnyTeam)
    ensures r.Ok? ==> r.value.gameId == gameId && HasPlayer(MyTeam(resp.body.teams, myId).value, myId)
    ensures r.Ok? ==> TeammateOk(MyTeam(resp.body.teams, myId).value, teammate)
    ensures r.Ok? ==> r.value.teamId == MyTeam(resp.body.teams, myId).value.id
    ensures r.Ok? ==> DistinctPlayers(r.value.playerStats)
  {
    if resp.status != 200 then Err(BadStatus(resp.status))
    else
      var game := resp.body;
      match MyTeam(game.teams, myId)
      case None => Err(NotOnAnyTeam)
      case Some(my) =>
        if !TeammateOk(my, teammate) then Err(TeammateMissing)
        else
          match EnemyTeam(game.teams, my.id)
          case None => Err(NoEnemyTeam)
          case Some(enemy) =>
            match OwnPlayers(my.players, game.rounds, scorer)
            case None => Err(RoundOutOfRange(FirstBadRound(GuessesOf(my.players), game.rounds, scorer)))
            case Some(stats) => Ok(Record(gameId, my, enemy, stats, scorer))
  }

  /** The stored record, from the two teams and my players' converted stats. */
  function Record(gameId: string, my: ApiTeam, enemy: ApiTeam, stats: seq<PlayerStats>, scorer: Scorer): (g: TeamGame)
    ensures g.gameId == gameId && g.teamId == my.id
    ensures DistinctPlayers(g.playerStats)
    ensures PlayerIds(g.playerStats) == Dedup(PlayerIds(stats))
    ensures forall i | 0 <= i < |g.playerStats| :: LastOf(stats, g.playerStats[i].playerId) == Some(g.playerStats[i])
  {
    var enemyGuesses := GuessesOf(enemy.players);
    var table := HealthRounds(GuessRounds(AllRounds(stats)), my.roundResults);
    var totalScore := TeamScoreTotal(stats);
    var teamStats := TeamStats(
      TeamDistanceTotal(stats),
      totalScore,
      TeamRoundsTotal(stats),
      HealthTotal(my.roundResults),
      Some(totalScore - EnemyTotal(enemyGuesses, scorer)));
    TeamGame(gameId, my.id, teamStats, PlayerEntries(stats),
      RoundStats(Ordered.Items(table), EnemyBest(enemyGuesses, scorer)))
  }

  /** The record's `teamStats` columns, read off the players and teams. */
  lemma RecordTotals(gameId: string, my: ApiTeam, enemy: ApiTeam, stats: seq<PlayerStats>, scorer: Scorer)
    ensures var t := Record(gameId, my, enemy, stats, scorer).teamStats;
      && t.totalScore == TeamScoreTotal(stats)
      && t.totalRounds == TeamRoundsTotal(stats)
      && t.scoreDiff.Some? && t.scoreDiff.value == TeamScoreTotal(stats) - EnemyTotal(GuessesOf(enemy.players), scorer)
      && t.totalHealthChange == HealthTotal(my.roundResults)
  {
  }

  /** The round number of the first own guess whose round does not exist
      (0 when there is none); only used to label the skip. */
  function FirstBadRound(gs: seq<ApiGuess>, rounds: seq<ApiRound>, scorer: Scorer): int {
    if |gs| == 0 then 0
    else if OwnGuess(gs[0], rounds, scorer).None? then gs[0].roundNumber
    else FirstBadRound(gs[1..], rounds, scorer)
  }

  /** The positions of `xs` where `f` succeeds, in increasing order. */
  function OkIndices<T, U, E>(xs: seq<T>, f: T -> Result<U, E>): (r: seq<nat>)
    ensures forall j | 0 <= j < |r| :: r[j] < |xs| && f(xs[r[j]]).Ok?
    ensures forall j, k | 0 <= j < k < |r| :: r[j] < r[k]
    ensures forall i | 0 <= i < |xs| && f(xs[i]).Ok? :: i in r
  {
    if |xs| == 0 then []
    else
      var init := xs[..|xs| - 1];
      assert forall i | 0 <= i < |init| :: init[i] == xs[i];
      OkIndices(init, f) + (if f(xs[|xs| - 1]).Ok? then [|xs| - 1] else [])
  }

  /** The successful results of `f` over `xs`, in order: a loop that
      appends on success and moves on otherwise. The `j`-th result is the
      value of the `j`-th success. */
  function OkValues<T, U, E>(xs: seq<T>, f: T -> Result<U, E>): (r: seq<U>)
    ensures |r| == |OkIndices(xs, f)|
    ensures forall j | 0 <= j < |r| :: f(xs[OkIndices(xs, f)[j]]) == Ok(r[j])
  {
    if |xs| == 0 then []
    else
      var init := xs[..|xs| - 1];
      assert forall i | 0 <= i < |init| :: init[i] == xs[i];
      var rest := OkValues(init, f);
      match f(xs[|xs| - 1])
      case Ok(u) => rest + [u]
      case Err(_) => rest
  }

  /** `fetch_team_duels`: one record per game that is not skipped, in input
      order. */
  function FetchTeamDuels(requests: seq<(string, Response)>, myId: string, teammate: Option<string>, scorer: Scorer): (r: seq<TeamGame>)
    ensures var ok := OkIndices(requests, (q: (string, Response)) => NormalizeGame(q.0, q.1, myId, teammate, scorer));
      && |r| == |ok|
      && forall j | 0 <= j < |r| :: NormalizeGame(requests[ok[j]].0, requests[ok[j]].1, myId, teammate, scorer) == Ok(r[j])
  {
    OkValues(requests, (q: (string, Response)) => NormalizeGame(q.0, q.1, myId, teammate, scorer))
  }

  // What a record says about its game

  /** Sum of the own scores under the own rule. */
  function OwnTotal(gs: seq<ApiGuess>, scorer: Scorer): int {
    if |gs| == 0 then 0 else OwnTotal(gs[..|gs| - 1], scorer) + OwnScore(gs[|gs| - 1], scorer)
  }

  lemma {:induction false} OwnTotalAppend(a: seq<ApiGuess>, b: seq<ApiGuess>, scorer: Scorer)
    ensures OwnTotal(a + b, scorer) == OwnTotal(a, scorer) + OwnTotal(b, scorer)
    decreases |b|
  {
    if |b| == 0 {
      assert a + b == a;
    } else {
      var init := b[..|b| - 1];
      assert (a + b)[..|a + b| - 1] == a + init;
      OwnTotalAppend(a, init, scorer);
    }
  }

  /** The stored scores of a player are the own scores of its guesses. */
  lemma {:induction false} StoredScores(gs: seq<ApiGuess>, rounds: seq<ApiRound>, scorer: Scorer)
    requires OwnGuesses(gs, rounds, scorer).Some?
    ensures ScoreSum(OwnGuesses(gs, rounds, scorer).value) == OwnTotal(gs, scorer)
    decreases |gs|
  {
    if |gs| > 0 {
      var init := gs[..|gs| - 1];
      StoredScores(init, rounds, scorer);
      var rs := OwnGuesses(gs, rounds, scorer).value;
      assert rs[..|rs| - 1] == OwnGuesses(init, rounds, scorer).value;
    }
  }

  /** Team totals over the players equal the totals over all own guesses. */
  lemma {:induction false} StoredTotals(ps: seq<ApiPlayer>, rounds: seq<ApiRound>, scorer: Scorer)
    requires OwnPlayers(ps, rounds, scorer).Some?
    ensures TeamScoreTotal(OwnPlayers(ps, rounds, scorer).value) == OwnTotal(GuessesOf(ps), scorer)
    ensures TeamRoundsTotal(OwnPlayers(ps, rounds, scorer).value) == |GuessesOf(ps)|
    decreases |ps|
  {
    if |ps| > 0 {
      var init := ps[..|ps| - 1];
      var p := ps[|ps| - 1];
      var stats := OwnPlayers(ps, rounds, scorer).value;
      assert forall i | 0 <= i < |init| :: init[i] == ps[i];
      StoredTotals(init, rounds, scorer);
      StoredScores(p.guesses, rounds, scorer);
      OwnTotalAppend(GuessesOf(init), p.guesses, scorer);
      assert stats[..|stats| - 1] == OwnPlayers(init, rounds, scorer).value;
    }
  }

  /** The teams a successful normalisation used. */
  ghost predicate Teams(resp: Response, myId: string, my: ApiTeam, enemy: ApiTeam) {
    && MyTeam(resp.body.teams, myId) == Some(my)
    && EnemyTeam(resp.body.teams, my.id) == Some(enemy)
  }

  /** `teamStats`: the score is the sum of the own scores, the round count is
      the number of own guesses, the score difference subtracts every enemy
      score, and the health change sums the complete round results. */
  lemma NormalizedTotals(gameId: string, resp: Response, myId: string, teammate: Option<string>, scorer: Scorer, my: ApiTeam, enemy: ApiTeam, g: TeamGame)
    requires NormalizeGame(gameId, resp, myId, teammate, scorer) == Ok(g)
    requires Teams(resp, myId, my, enemy)
    ensures g.teamStats.totalScore == OwnTotal(GuessesOf(my.players), scorer)
    ensures g.teamStats.totalRounds == |GuessesOf(my.players)|
    ensures g.teamStats.scoreDiff.Some?
    ensures g.teamStats.scoreDiff.value == g.teamStats.totalScore - EnemyTotal(GuessesOf(enemy.players), scorer)
    ensures g.teamStats.totalHealthChange == HealthTotal(my.roundResults)
  {
    var own := OwnPlayers(my.players, resp.body.rounds, scorer).value;
    assert g == Record(gameId, my, enemy, own, scorer);
    RecordTotals(gameId, my, enemy, own, scorer);
    StoredTotals(my.players, resp.body.rounds, scorer);
  }

  /** The round numbers of a `roundStats` list, in order. */
  function StatRounds(rs: seq<RoundStat>): (r: seq<int>)
    ensures |r| == |rs|
    ensures forall i | 0 <= i < |rs| :: r[i] == rs[i].roundNumber
  {
    if |rs| == 0 then [] else StatRounds(rs[..|rs| - 1]) + [rs[|rs| - 1].roundNumber]
  }

  /** The `roundStats` entry the record holds for round `rn`: the own
      guesses' summed distance and score and their countries, the delta of
      the round's last complete result (0 without one), and the enemy's best
      score. */
  function ExpectedRow(own: seq<Guess>, rrs: seq<RoundResult>, best: map<int, int>, rn: int): RoundStat {
    RoundStat(rn, DistanceAt(own, rn), ScoreAt(own, rn), LastDelta(rrs, rn).GetOr(0), CountriesAt(own, rn), Get(best, rn))
  }

  /** `playerStats`: one entry per distinct player id of my team, in order
      of first appearance, holding the stats of the last player listed under
      that id; those stats are the player's converted guesses and their
      sums. */
  lemma NormalizedPlayers(gameId: string, resp: Response, myId: string, teammate: Option<string>, scorer: Scorer, my: ApiTeam, enemy: ApiTeam, g: TeamGame)
    requires NormalizeGame(gameId, resp, myId, teammate, scorer) == Ok(g)
    requires Teams(resp, myId, my, enemy)
    ensures var own := OwnPlayers(my.players, resp.body.rounds, scorer).value;
      && PlayerIds(g.playerStats) == Dedup(PlayerIds(own))
      && forall i | 0 <= i < |g.playerStats| :: LastOf(own, g.playerStats[i].playerId) == Some(g.playerStats[i])
    ensures forall i | 0 <= i < |g.playerStats| ::
      && Some(g.playerStats[i].rounds) == OwnGuesses(PlayerGuesses(my.players, g.playerStats[i].playerId), resp.body.rounds, scorer)
      && g.playerStats[i].score == ScoreSum(g.playerStats[i].rounds)
      && g.playerStats[i].distance == DistanceSum(g.playerStats[i].rounds)
  {
    var own := OwnPlayers(my.players, resp.body.rounds, scorer).value;
    assert g == Record(gameId, my, enemy, own, scorer);
    forall i | 0 <= i < |g.playerStats|
      ensures Some(g.playerStats[i].rounds) == OwnGuesses(PlayerGuesses(my.players, g.playerStats[i].playerId), resp.body.rounds, scorer)
      ensures g.playerStats[i].score == ScoreSum(g.playerStats[i].rounds)
      ensures g.playerStats[i].distance == DistanceSum(g.playerStats[i].rounds)
    {
      var p := g.playerStats[i];
      assert LastOf(own, p.playerId) == Some(p);
      LastPlayer(my.players, resp.body.rounds, scorer, p.playerId);
    }
  }

  /** The guesses of the last player listed under `id` (none when there is
      no such player). */
  function PlayerGuesses(ps: seq<ApiPlayer>, id: string): seq<ApiGuess> {
    if |ps| == 0 then []
    else if ps[|ps| - 1].playerId == id then ps[|ps| - 1].guesses
    else PlayerGuesses(ps[..|ps| - 1], id)
  }

  /** The last converted stats under `id` are those of the last player
      listed under `id`. */
  lemma {:induction false} LastPlayer(ps: seq<ApiPlayer>, rounds: seq<ApiRound>, scorer: Scorer, id: string)
    requires OwnPlayers(ps, rounds, scorer).Some?
    ensures var last := LastOf(OwnPlayers(ps, rounds, scorer).value, id);
      last.Some? ==>
        && Some(last.value.rounds) == OwnGuesses(PlayerGuesses(ps, id), rounds, scorer)
        && last.value.score == ScoreSum(last.value.rounds)
        && last.value.distance == DistanceSum(last.value.rounds)
    decreases |ps|
  {
    if |ps| > 0 {
      var init := ps[..|ps| - 1];
      var stats := OwnPlayers(ps, rounds, scorer).value;
      assert forall i | 0 <= i < |init| :: init[i] == ps[i];
      assert OwnPlayers(init, rounds, scorer).Some?;
      assert stats[..|stats| - 1] == OwnPlayers(init, rounds, scorer).value;
      LastPlayer(init, rounds, scorer, id);
      LastOfSnoc(stats, id);
    }
  }

  /** `roundStats`: first the guessed rounds in order of their first guess,
      then the rounds with only a complete round result in order of that
      result, each once; every entry is the expected row of its round. */
  lemma NormalizedRounds(gameId: string, resp: Response, myId: string, teammate: Option<string>, scorer: Scorer, my: ApiTeam, enemy: ApiTeam, g: TeamGame)
    requires NormalizeGame(gameId, resp, myId, teammate, scorer) == Ok(g)
    requires Teams(resp, myId, my, enemy)
    ensures var all := AllRounds(OwnPlayers(my.players, resp.body.rounds, scorer).value);
      StatRounds(g.roundStats) == Dedup(GuessRoundNumbers(all) + DeltaRoundNumbers(my.roundResults))
    ensures var all := AllRounds(OwnPlayers(my.players, resp.body.rounds, scorer).value);
      forall i | 0 <= i < |g.roundStats| ::
        g.roundStats[i] == ExpectedRow(all, my.roundResults, EnemyBest(GuessesOf(enemy.players), scorer), g.roundStats[i].roundNumber)
  {
    var own := OwnPlayers(my.players, resp.body.rounds, scorer).value;
    assert g == Record(gameId, my, enemy, own, scorer);
    RecordRounds(gameId, my, enemy, own, scorer);
  }

  /** A round has an entry exactly when some own guess names it or it has a
      complete round result. */
  lemma NormalizedRoundCoverage(gameId: string, resp: Response, myId: string, teammate: Option<string>, scorer: Scorer, my: ApiTeam, enemy: ApiTeam, g: TeamGame, rn: int)
    requires NormalizeGame(gameId, resp, myId, teammate, scorer) == Ok(g)
    requires Teams(resp, myId, my, enemy)
    ensures var all := AllRounds(OwnPlayers(my.players, resp.body.rounds, scorer).value);
      rn in StatRounds(g.roundStats) <==>
        (exists i | 0 <= i < |all| :: all[i].roundNumber == rn) || LastDelta(my.roundResults, rn).Some?
  {
    var all := AllRounds(OwnPlayers(my.players, resp.body.rounds, scorer).value);
    NormalizedRounds(gameId, resp, myId, teammate, scorer, my, enemy, g);
    var xs := GuessRoundNumbers(all);
    if rn in xs {
      var i :| 0 <= i < |xs| && xs[i] == rn;
      assert all[i].roundNumber == rn;
    }
    if exists i | 0 <= i < |all| :: all[i].roundNumber == rn {
      var i :| 0 <= i < |all| && all[i].roundNumber == rn;
      assert xs[i] == rn;
    }
  }

  /** The record's `roundStats`, read off the round table. */
  lemma RecordRounds(gameId: string, my: ApiTeam, enemy: ApiTeam, own: seq<PlayerStats>, scorer: Scorer)
    ensures var g := Record(gameId, my, enemy, own, scorer);
      StatRounds(g.roundStats) == Dedup(GuessRoundNumbers(AllRounds(own)) + DeltaRoundNumbers(my.roundResults))
    ensures var g := Record(gameId, my, enemy, own, scorer);
      forall i | 0 <= i < |g.roundStats| ::
        g.roundStats[i] == ExpectedRow(AllRounds(own), my.roundResults, EnemyBest(GuessesOf(enemy.players), scorer), g.roundStats[i].roundNumber)
  {
    var all := AllRounds(own);
    var best := EnemyBest(GuessesOf(enemy.players), scorer);
    var guessed := GuessRounds(all);
    var table := HealthRounds(guessed, my.roundResults);
    var items := Ordered.Items(table);
    var g := Record(gameId, my, enemy, own, scorer);
    assert g.roundStats == RoundStats(items, best);
    GuessRoundsOrder(all);
    HealthRoundsOrder(guessed, GuessRoundNumbers(all), my.roundResults);
    assert StatRounds(g.roundStats) == table.keys;
    forall i | 0 <= i < |g.roundStats|
      ensures g.roundStats[i] == ExpectedRow(all, my.roundResults, best, g.roundStats[i].roundNumber)
    {
      var rn := items[i].0;
      assert rn in table.table;
      GuessRoundsTotals(all, rn);
      HealthRoundsEffect(guessed, my.roundResults, rn);
    }
  }

  /** Exactly when a game is dropped, and why. */
  lemma SkipReasons(gameId: string, resp: Response, myId: string, teammate: Option<string>, scorer: Scorer)
    ensures var r := NormalizeGame(gameId, resp, myId, teammate, scorer);
      r == Err(TeammateMissing) <==>
        resp.status == 200 && MyTeam(resp.body.teams, myId).Some?
        && !TeammateOk(MyTeam(resp.body.teams, myId).value, teammate)
    ensures var r := NormalizeGame(gameId, resp, myId, teammate, scorer);
      r == Err(NoEnemyTeam) <==>
        resp.status == 200 && MyTeam(resp.body.teams, myId).Some?
        && TeammateOk(MyTeam(resp.body.teams, myId).value, teammate)
        && forall t | t in resp.body.teams :: t.id == MyTeam(resp.body.teams, myId).value.id
    ensures var r := NormalizeGame(gameId, resp, myId, teammate, scorer);
      (r.Err? && r.error.RoundOutOfRange?) <==>
        resp.status == 200 && MyTeam(resp.body.teams, myId).Some?
        && TeammateOk(MyTeam(resp.body.teams, myId).value, teammate)
        && EnemyTeam(resp.body.teams, MyTeam(resp.body.teams, myId).value.id).Some?
        && exists p, g | p in MyTeam(resp.body.teams, myId).value.players && g in p.guesses ::
          !(-|resp.body.rounds| <= g.roundNumber - 1 < |resp.body.rounds|)
  {
    if resp.status == 200 && MyTeam(resp.body.teams, myId).Some? {
      OwnPlayersFail(MyTeam(resp.body.teams, myId).value.players, resp.body.rounds, scorer);
    }
  }

  /** Converting a team's players fails exactly when some guess names a
      round the round list does not hold. */
  lemma OwnPlayersFail(ps: seq<ApiPlayer>, rounds: seq<ApiRound>, scorer: Scorer)
    ensures OwnPlayers(ps, rounds, scorer).None? <==>
      exists p, g | p in ps && g in p.guesses :: !(-|rounds| <= g.roundNumber - 1 < |rounds|)
  {
    if exists p, g | p in ps && g in p.guesses :: !(-|rounds| <= g.roundNumber - 1 < |rounds|) {
      var p, g :| p in ps && g in p.guesses && !(-|rounds| <= g.roundNumber - 1 < |rounds|);
      var i :| 0 <= i < |ps| && ps[i] == p;
      var k :| 0 <= k < |p.guesses| && p.guesses[k] == g;
      assert OwnGuess(p.guesses[k], rounds, scorer).None?;
      assert OwnGuesses(ps[i].guesses, rounds, scorer).None?;
    }
    if OwnPlayers(ps, rounds, scorer).None? {
      var i :| 0 <= i < |ps| && OwnGuesses(ps[i].guesses, rounds, scorer).None?;
      var k :| 0 <= k < |ps[i].guesses| && OwnGuess(ps[i].guesses[k], rounds, scorer).None?;
      assert ps[i].guesses[k] in ps[i].guesses;
    }
  }

}
