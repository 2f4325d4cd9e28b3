/** The team-duel aggregation `process_games` (geoguessr/process_stats.py,
    lines 9-255): one pass over the games building overall counters, player
    totals and per-country buckets, a batched reverse-geocoding pass for the
    hit rate, and the final report with countries ranked by score difference.

    Where the Python raises (a game with fewer than two players, an empty
    `roundStats`, a country round whose picked guess is missing, a round
    number past the end of `roundStats`) the model returns `Err`. */
module TeamDuels {
  import opened Common
  import opened Records
  import opened PairRounds
  import opened HitRate
  import opened Ordered
  import opened Ranking

  /** The exceptions the aggregation can raise, with the game that raised. */
  datatype Fault =
    | TooFewPlayers(gameId: string)            // players[1]
    | NoRoundStats(gameId: string)             // roundStats[-1]
    | NoGuessToGeocode(gameId: string, round: int)  // r1["lat"] / r2["lat"] on None
    | RoundStatMissing(gameId: string, round: int)  // roundStats[rn - 1]

  /** A team country bucket: the shared part plus score differences and wins
      against the enemy's best. */
  datatype TeamCountry = TeamCountry(core: PairCountry, scoreDiffs: seq<int>, wins: nat)

  function NewTeamCountry(): (c: TeamCountry)
    ensures TeamCountryOk(c) && c.core.rounds == 0
  {
    TeamCountry(NewPairCountry(), [], 0)
  }

  /** One score difference per round, and `wins` counts the positive ones. */
  ghost predicate TeamCountryOk(c: TeamCountry) {
    && PairCountryOk(c.core)
    && |c.scoreDiffs| == c.core.rounds
    && c.wins == CountPositive(c.scoreDiffs)
  }

  /** Everything the game loop accumulates. `queue` is `all_guess_coords`
      paired with the bucket each coordinate was queued for. */
  datatype TeamAcc = TeamAcc(
    counters: Counters,
    players: PlayerTotals,
    time: map<string, real>,
    timeRounds: map<string, nat>,
    queue: seq<Queued>,
    countries: Dict<string, TeamCountry>)

  /** Rounds recorded in bucket `k` (0 when it does not exist). */
  function BucketRounds(d: Dict<string, TeamCountry>, k: string): nat {
    if k in d.table then d.table[k].core.rounds else 0
  }

  /** Bucket `k`, or the fresh bucket `defaultdict` would create. */
  function BucketOf(d: Dict<string, TeamCountry>, k: string): TeamCountry {
    if k in d.table then d.table[k] else NewTeamCountry()
  }

  /** Every timed player has at least one timed round. */
  ghost predicate TimeOk(time: map<string, real>, timeRounds: map<string, nat>) {
    forall p | p in time :: p in timeRounds && timeRounds[p] >= 1
  }

  /** The loop invariant: buckets well formed, and exactly one queued guess
      per country round of each bucket. */
  ghost predicate AccOk(a: TeamAcc) {
    && TotalsOk(a.players)
    && TimeOk(a.time, a.timeRounds)
    && a.countries.Valid()
    && (forall k | k in a.countries.table :: TeamCountryOk(a.countries.table[k]))
    && (forall k :: CountCountry(a.queue, k) == BucketRounds(a.countries, k))
  }

  function EmptyAcc(): (a: TeamAcc)
    ensures AccOk(a)
    ensures a.counters == Counters(0, 0, 0, 0, 0) && a.queue == [] && a.countries.keys == []
  {
    TeamAcc(Counters(0, 0, 0, 0, 0), NoTotals(), map[], map[], [], Empty())
  }

  /** Accumulate a guess time when the guess has one. */
  function CreditTime(time: map<string, real>, timeRounds: map<string, nat>, p: string, s: Side)
    : (r: (map<string, real>, map<string, nat>))
    requires TimeOk(time, timeRounds)
    ensures TimeOk(r.0, r.1)
    ensures s.time.None? ==> r == (time, timeRounds)
    ensures s.time.Some? ==> r.0.Keys == time.Keys + {p} && r.1[p] == GetNat(timeRounds, p) + 1
  {
    match s.time
    case None => (time, timeRounds)
    case Some(t) => (AddReal(time, p, t), AddNat(timeRounds, p, 1))
  }

  /** A timed guess adds its time and one timed round to its player and to
      nobody else; an untimed guess adds nothing. */
  lemma CreditTimeValues(time: map<string, real>, timeRounds: map<string, nat>, p: string, s: Side, q: string)
    requires TimeOk(time, timeRounds)
    ensures var r := CreditTime(time, timeRounds, p, s);
      && GetReal(r.0, q) == GetReal(time, q) + (if q == p && s.time.Some? then s.time.value else 0.0)
      && GetNat(r.1, q) == GetNat(timeRounds, q) + (if q == p && s.time.Some? then 1 else 0)
  {
  }

  /** One more country round in a bucket, with the difference between the
      team's best score and the enemy's best. */
  function AddTeamRound(c: TeamCountry, p1: string, p2: string, pr: PairRound, enemyBest: int): (r: TeamCountry)
    requires TeamCountryOk(c)
    ensures TeamCountryOk(r)
    ensures r.core.rounds == c.core.rounds + 1
    ensures r.scoreDiffs == c.scoreDiffs + [TeamScore(pr) - enemyBest]
    ensures r.core == AddCountryRound(c.core, p1, p2, pr)
  {
    var diff := TeamScore(pr) - enemyBest;
    CountPositiveAppend(c.scoreDiffs, diff);
    TeamCountry(AddCountryRound(c.core, p1, p2, pr), c.scoreDiffs + [diff], c.wins + (if diff > 0 then 1 else 0))
  }

  /** Growing bucket `k` by one round while queueing one guess for it keeps
      the invariant. */
  lemma BucketGrows(a: TeamAcc, k: string, c: TeamCountry, e: Queued)
    requires AccOk(a)
    requires TeamCountryOk(c) && c.core.rounds == BucketRounds(a.countries, k) + 1
    requires e.country == k
    ensures AccOk(a.(queue := a.queue + [e], countries := Put(a.countries, k, c)))
  {
    QueueMatchesBuckets(a.queue, a.countries, k, c, e);
  }

  /** One more guess queued for `k` matches one more round in its bucket. */
  lemma QueueMatchesBuckets(q: seq<Queued>, d: Dict<string, TeamCountry>, k: string, c: TeamCountry, e: Queued)
    requires forall j :: CountCountry(q, j) == BucketRounds(d, j)
    requires c.core.rounds == BucketRounds(d, k) + 1
    requires e.country == k
    ensures forall j :: CountCountry(q + [e], j) == BucketRounds(Put(d, k, c), j)
  {
    forall j
      ensures CountCountry(q + [e], j) == BucketRounds(Put(d, k, c), j)
    {
      CountCountryAppend(q, e, j);
    }
  }

  /** The country branch of a round (lines 129-167): the bucket grows by one
      round, one guess is queued for it, and 5ks are counted. */
  function CountryStep(a: TeamAcc, k: string, pick: Guess, p1: string, p2: string, pr: PairRound, enemyBest: int)
    : (r: TeamAcc)
    requires AccOk(a)
    ensures AccOk(r)
    ensures r.counters == a.counters && r.time == a.time && r.timeRounds == a.timeRounds
    ensures r.players == a.players.(fiveKs := CountFiveKs(a.players.fiveKs, p1, p2, pr))
    ensures r.queue == a.queue + [Queued(Coord(pick.lat, pick.lng), k)]
    ensures r.countries == Put(a.countries, k, AddTeamRound(BucketOf(a.countries, k), p1, p2, pr, enemyBest))
  {
    var c := BucketOf(a.countries, k);
    var c' := AddTeamRound(c, p1, p2, pr, enemyBest);
    var e := Queued(Coord(pick.lat, pick.lng), k);
    BucketGrows(a, k, c', e);
    var a1 := a.(queue := a.queue + [e], countries := Put(a.countries, k, c'));
    a1.(players := a1.players.(fiveKs := CountFiveKs(a1.players.fiveKs, p1, p2, pr)))
  }

  /** Round `rn` folds without raising: it has no country, or the guess it
      would geocode exists and `roundStats` reaches it. */
  predicate RoundFits(stats: seq<RoundStat>, p1: seq<Guess>, p2: seq<Guess>, rn: int, mapsize: real) {
    var pr := ReadRound(p1, p2, rn, mapsize);
    pr.country.None? || (Picked(pr).Some? && rn <= |stats|)
  }

  /** Rounds `1..n` all fold without raising. */
  predicate RoundsFit(stats: seq<RoundStat>, p1: seq<Guess>, p2: seq<Guess>, n: int, mapsize: real)
    decreases n
  {
    n <= 0 || (RoundsFit(stats, p1, p2, n - 1, mapsize) && RoundFits(stats, p1, p2, n, mapsize))
  }

  /** The part of a round outside the country branch: both players' totals
      and guess times. */
  function Credited(a: TeamAcc, p1: string, p2: string, pr: PairRound): (r: TeamAcc)
    requires AccOk(a)
    ensures AccOk(r)
    ensures r.counters == a.counters && r.queue == a.queue && r.countries == a.countries
    ensures r.players == CreditRound(a.players, p1, p2, pr)
    ensures (r.time, r.timeRounds) == CreditTime(CreditTime(a.time, a.timeRounds, p1, pr.one).0,
                                                 CreditTime(a.time, a.timeRounds, p1, pr.one).1, p2, pr.two)
  {
    var (t1, tr1) := CreditTime(a.time, a.timeRounds, p1, pr.one);
    var (t2, tr2) := CreditTime(t1, tr1, p2, pr.two);
    a.(players := CreditRound(a.players, p1, p2, pr), time := t2, timeRounds := tr2)
  }

  /** The country step touches bucket `k` only: it gains one round and the
      score difference against `enemyBest`, a new `k` is listed last, and
      every other bucket and the bucket order stay as they were. */
  lemma CountryStepBuckets(a: TeamAcc, k: string, pick: Guess, p1: string, p2: string, pr: PairRound, enemyBest: int,
                           j: string)
    requires AccOk(a)
    ensures var r := CountryStep(a, k, pick, p1, p2, pr, enemyBest);
      && BucketOf(r.countries, j) == (if j == k then AddTeamRound(BucketOf(a.countries, k), p1, p2, pr, enemyBest)
                                      else BucketOf(a.countries, j))
      && BucketRounds(r.countries, j) == BucketRounds(a.countries, j) + (if j == k then 1 else 0)
      && BucketOf(r.countries, k).scoreDiffs == BucketOf(a.countries, k).scoreDiffs + [TeamScore(pr) - enemyBest]
      && r.countries.keys == (if k in a.countries.table then a.countries.keys else a.countries.keys + [k])
  {
  }

  /** One round `rn` of a game (lines 84-167). It raises exactly when it has
      a country and the guess to geocode is missing, or when `roundStats`
      has no entry `rn - 1` for the enemy's best score. */
  function RoundStep(a: TeamAcc, gameId: string, stats: seq<RoundStat>, p1: PlayerStats, p2: PlayerStats,
                     rn: int, mapsize: real): (r: Result<TeamAcc, Fault>)
    requires AccOk(a)
    requires rn >= 1
    ensures r.Ok? <==> RoundFits(stats, p1.rounds, p2.rounds, rn, mapsize)
    ensures var pr := ReadRound(p1.rounds, p2.rounds, rn, mapsize);
      r == Err(NoGuessToGeocode(gameId, rn)) <==> pr.country.Some? && Picked(pr).None?
    ensures var pr := ReadRound(p1.rounds, p2.rounds, rn, mapsize);
      r == Err(RoundStatMissing(gameId, rn)) <==> pr.country.Some? && Picked(pr).Some? && rn > |stats|
    ensures r.Err? ==> r.error == NoGuessToGeocode(gameId, rn) || r.error == RoundStatMissing(gameId, rn)
    ensures r.Ok? ==> AccOk(r.value) && r.value.counters == a.counters
  {
    var pr := ReadRound(p1.rounds, p2.rounds, rn, mapsize);
    var a1 := Credited(a, p1.playerId, p2.playerId, pr);
    match pr.country
    case None => Ok(a1)
    case Some(country) =>
      var pick := Picked(pr);
      if pick.None? then Err(NoGuessToGeocode(gameId, rn))
      else if rn > |stats| then Err(RoundStatMissing(gameId, rn))
      else Ok(CountryStep(a1, Lower(country), pick.value, p1.playerId, p2.playerId, pr, stats[rn - 1].enemyBestScore))
  }

  /** What a successful round does to the buckets: a round without a
      country leaves buckets and queue alone; a country round adds one round
      to the bucket of its lower-cased country and leaves every other bucket
      as it was. */
  lemma RoundBuckets(a: TeamAcc, gameId: string, stats: seq<RoundStat>, p1: PlayerStats, p2: PlayerStats,
                     rn: int, mapsize: real, j: string)
    requires AccOk(a)
    requires rn >= 1
    requires RoundStep(a, gameId, stats, p1, p2, rn, mapsize).Ok?
    ensures var r := RoundStep(a, gameId, stats, p1, p2, rn, mapsize).value;
      && BucketRounds(r.countries, j) == BucketRounds(a.countries, j) + (if LandsIn(p1.rounds, p2.rounds, rn, j) then 1 else 0)
      && (!LandsIn(p1.rounds, p2.rounds, rn, j) ==> BucketOf(r.countries, j) == BucketOf(a.countries, j))
      && (ReadRound(p1.rounds, p2.rounds, rn, mapsize).country.None? ==> r.queue == a.queue && r.countries == a.countries)
  {
    var pr := ReadRound(p1.rounds, p2.rounds, rn, mapsize);
    var a1 := Credited(a, p1.playerId, p2.playerId, pr);
    if pr.country.Some? {
      var k := Lower(pr.country.value);
      var eb := stats[rn - 1].enemyBestScore;
      assert RoundStep(a, gameId, stats, p1, p2, rn, mapsize).value
          == CountryStep(a1, k, Picked(pr).value, p1.playerId, p2.playerId, pr, eb);
      CountryStepBuckets(a1, k, Picked(pr).value, p1.playerId, p2.playerId, pr, eb, j);
      assert LandsIn(p1.rounds, p2.rounds, rn, j) <==> j == k;
    } else {
      assert RoundStep(a, gameId, stats, p1, p2, rn, mapsize).value == a1;
      assert !LandsIn(p1.rounds, p2.rounds, rn, j);
    }
  }

  /** The bucket a round lands in records the round for both players, with
      the team's score difference against the enemy's best score of the
      round. */
  lemma RoundBucket(a: TeamAcc, gameId: string, stats: seq<RoundStat>, p1: PlayerStats, p2: PlayerStats,
                    rn: int, mapsize: real, j: string)
    requires AccOk(a)
    requires rn >= 1
    requires RoundStep(a, gameId, stats, p1, p2, rn, mapsize).Ok?
    requires LandsIn(p1.rounds, p2.rounds, rn, j)
    ensures rn <= |stats|
    ensures var pr := ReadRound(p1.rounds, p2.rounds, rn, mapsize);
      BucketOf(RoundStep(a, gameId, stats, p1, p2, rn, mapsize).value.countries, j)
        == AddTeamRound(BucketOf(a.countries, j), p1.playerId, p2.playerId, pr, stats[rn - 1].enemyBestScore)
  {
    var pr := ReadRound(p1.rounds, p2.rounds, rn, mapsize);
    var r := RoundStep(a, gameId, stats, p1, p2, rn, mapsize).value;
    RoundStepCountry(a, gameId, stats, p1, p2, rn, mapsize, pr, r);
    var a1 := Credited(a, p1.playerId, p2.playerId, pr);
    CountryStepBuckets(a1, j, Picked(pr).value, p1.playerId, p2.playerId, pr, stats[rn - 1].enemyBestScore, j);
  }

  /** A successful round with a country took the country branch: the
      picked guess exists, `roundStats` reaches round `rn`, and the result is
      the country step on top of the credited totals. */
  lemma RoundStepCountry(a: TeamAcc, gameId: string, stats: seq<RoundStat>, p1: PlayerStats, p2: PlayerStats,
                         rn: int, mapsize: real, pr: PairRound, r: TeamAcc)
    requires AccOk(a)
    requires rn >= 1
    requires pr == ReadRound(p1.rounds, p2.rounds, rn, mapsize) && pr.country.Some?
    requires RoundStep(a, gameId, stats, p1, p2, rn, mapsize) == Ok(r)
    ensures rn <= |stats| && Picked(pr).Some?
    ensures r == CountryStep(Credited(a, p1.playerId, p2.playerId, pr), Lower(pr.country.value), Picked(pr).value,
                             p1.playerId, p2.playerId, pr, stats[rn - 1].enemyBestScore)
  {
  }

  /** `for rn in range(1, n + 1)`, stopping at the first exception. */
  function RoundsUpTo(a: TeamAcc, gameId: string, stats: seq<RoundStat>, p1: PlayerStats, p2: PlayerStats,
                      n: int, mapsize: real): (r: Result<TeamAcc, Fault>)
    requires AccOk(a)
    ensures r.Ok? <==> RoundsFit(stats, p1.rounds, p2.rounds, n, mapsize)
    ensures r.Ok? ==> AccOk(r.value) && r.value.counters == a.counters
    ensures r.Err? ==> r.error.gameId == gameId && (r.error.NoGuessToGeocode? || r.error.RoundStatMissing?)
    ensures r.Err? && r.error.RoundStatMissing? ==> n > |stats|
    decreases if n > 0 then n else 0
  {
    if n <= 0 then Ok(a)
    else
      match RoundsUpTo(a, gameId, stats, p1, p2, n - 1, mapsize)
      case Err(e) => Err(e)
      case Ok(a') => RoundStep(a', gameId, stats, p1, p2, n, mapsize)
  }

  /** After rounds `1..n`, bucket `k` holds as many more rounds as there are
      rounds among `1..n` whose country lower-cases to `k`. */
  lemma {:induction false} RoundsUpToBuckets(a: TeamAcc, gameId: string, stats: seq<RoundStat>, p1: PlayerStats,
                                             p2: PlayerStats, n: int, mapsize: real, k: string)
    requires AccOk(a)
    requires RoundsUpTo(a, gameId, stats, p1, p2, n, mapsize).Ok?
    ensures BucketRounds(RoundsUpTo(a, gameId, stats, p1, p2, n, mapsize).value.countries, k)
         == BucketRounds(a.countries, k) + BucketCount(p1.rounds, p2.rounds, n, k)
    decreases if n > 0 then n else 0
  {
    if n > 0 {
      RoundsUpToBuckets(a, gameId, stats, p1, p2, n - 1, mapsize, k);
      var a' := RoundsUpTo(a, gameId, stats, p1, p2, n - 1, mapsize).value;
      RoundBuckets(a', gameId, stats, p1, p2, n, mapsize, k);
    }
  }

  predicate MultiMerchantGame(g: TeamGame) {
    MultiMerchant(g.teamStats.totalHealthChange, g.teamStats.scoreDiff.GetOr(0))
  }

  predicate ReverseMerchantGame(g: TeamGame) {
    ReverseMerchant(g.teamStats.totalHealthChange, g.teamStats.scoreDiff.GetOr(0))
  }

  /** The game-level counters of lines 51-69 and 81-82. */
  function CountGame(c: Counters, g: TeamGame): Counters {
    Counters(
      c.games + 1,
      c.wins + (if WonGame(g) then 1 else 0),
      c.rounds + LastRound(g),
      c.multi + (if MultiMerchantGame(g) then 1 else 0),
      c.reverse + (if ReverseMerchantGame(g) then 1 else 0))
  }

  /** A game folds without raising: it has two players and a round stat,
      and each of its rounds folds. */
  predicate GameFits(g: TeamGame, mapsize: real) {
    && Shaped(g)
    && RoundsFit(g.roundStats, g.playerStats[0].rounds, g.playerStats[1].rounds, LastRound(g), mapsize)
  }

  /** Every game of the list folds without raising. */
  predicate AllFit(gs: seq<TeamGame>, mapsize: real) {
    |gs| == 0 || (AllFit(gs[..|gs| - 1], mapsize) && GameFits(gs[|gs| - 1], mapsize))
  }

  lemma {:induction false} AllFitIff(gs: seq<TeamGame>, mapsize: real)
    ensures AllFit(gs, mapsize) <==> forall i | 0 <= i < |gs| :: GameFits(gs[i], mapsize)
  {
    if |gs| > 0 {
      var init := gs[..|gs| - 1];
      AllFitIff(init, mapsize);
      assert forall i | 0 <= i < |init| :: init[i] == gs[i];
    }
  }

  /** One game (lines 50-167). Only the first two players are read. */
  function GameStep(a: TeamAcc, g: TeamGame, mapsize: real): (r: Result<TeamAcc, Fault>)
    requires AccOk(a)
    ensures r.Ok? <==> GameFits(g, mapsize)
    ensures r.Ok? ==> AccOk(r.value) && r.value.counters == CountGame(a.counters, g)
    ensures r.Err? ==> r.error.gameId == g.gameId
    ensures r == Err(TooFewPlayers(g.gameId)) <==> |g.playerStats| < 2
    ensures r == Err(NoRoundStats(g.gameId)) <==> |g.playerStats| >= 2 && |g.roundStats| == 0
    ensures r.Err? && r.error.RoundStatMissing? ==> !Aligned(g)
  {
    if |g.playerStats| < 2 then Err(TooFewPlayers(g.gameId))
    else if |g.roundStats| == 0 then Err(NoRoundStats(g.gameId))
    else
      RoundsUpTo(a.(counters := CountGame(a.counters, g)), g.gameId, g.roundStats,
                 g.playerStats[0], g.playerStats[1], LastRound(g), mapsize)
  }

  /** The whole game loop, stopping at the first exception. */
  function FoldGames(gs: seq<TeamGame>, mapsize: real): (r: Result<TeamAcc, Fault>)
    ensures r.Ok? <==> AllFit(gs, mapsize)
    ensures r.Ok? ==> AccOk(r.value)
    ensures r.Ok? ==> r.value.counters == Counters(|gs|, CountWhere(gs, WonGame), RoundsPlayed(gs),
                                                   CountWhere(gs, MultiMerchantGame),
                                                   CountWhere(gs, ReverseMerchantGame))
    ensures r.Err? && r.error.RoundStatMissing? ==> exists i | 0 <= i < |gs| :: !Aligned(gs[i])
  {
    if |gs| == 0 then Ok(EmptyAcc())
    else
      var init := gs[..|gs| - 1];
      var g := gs[|gs| - 1];
      match FoldGames(init, mapsize)
      case Err(e) =>
        assert forall i | 0 <= i < |init| :: init[i] == gs[i];
        Err(e)
      case Ok(a) =>
        CountsStep(gs);
        GameStep(a, g, mapsize)
  }

  /** Country rounds of game `g` that land in bucket `k`: its first two
      players' rounds `1..LastRound(g)`. */
  function GameBucketCount(g: TeamGame, k: string): nat {
    if Shaped(g) then BucketCount(g.playerStats[0].rounds, g.playerStats[1].rounds, LastRound(g), k) else 0
  }

  /** Country rounds of all games that land in bucket `k`. */
  function CountryRounds(gs: seq<TeamGame>, k: string): nat {
    if |gs| == 0 then 0 else CountryRounds(gs[..|gs| - 1], k) + GameBucketCount(gs[|gs| - 1], k)
  }

  lemma GameStepBuckets(a: TeamAcc, g: TeamGame, mapsize: real, k: string)
    requires AccOk(a)
    requires GameStep(a, g, mapsize).Ok?
    ensures BucketRounds(GameStep(a, g, mapsize).value.countries, k) == BucketRounds(a.countries, k) + GameBucketCount(g, k)
  {
    RoundsUpToBuckets(a.(counters := CountGame(a.counters, g)), g.gameId, g.roundStats,
                      g.playerStats[0], g.playerStats[1], LastRound(g), mapsize, k);
  }

  /** Bucket `k` of the finished loop holds exactly the games' country
      rounds whose country lower-cases to `k`. */
  lemma {:induction false} FoldBuckets(gs: seq<TeamGame>, mapsize: real, k: string)
    requires FoldGames(gs, mapsize).Ok?
    ensures BucketRounds(FoldGames(gs, mapsize).value.countries, k) == CountryRounds(gs, k)
  {
    if |gs| > 0 {
      var init := gs[..|gs| - 1];
      FoldBuckets(init, mapsize, k);
      GameStepBuckets(FoldGames(init, mapsize).value, gs[|gs| - 1], mapsize, k);
    }
  }

  /** The counters of a list of games are those of its prefix with the last
      game counted. */
  lemma CountsStep(gs: seq<TeamGame>)
    requires |gs| > 0
    ensures var init := gs[..|gs| - 1];
      Counters(|gs|, CountWhere(gs, WonGame), RoundsPlayed(gs),
               CountWhere(gs, MultiMerchantGame), CountWhere(gs, ReverseMerchantGame))
      == CountGame(Counters(|init|, CountWhere(init, WonGame), RoundsPlayed(init),
                            CountWhere(init, MultiMerchantGame), CountWhere(init, ReverseMerchantGame)),
                   gs[|gs| - 1])
  {
  }

  // ---------------------------------------------------------------------
  // The report (lines 169-255)

  datatype TeamOverall = TeamOverall(
    totalGames: nat,
    winPercentage: real,
    avgRoundsPerGame: real,
    contributionPercent: map<string, real>,
    avgIndividualScore: map<string, real>,
    playerTotal5ks: map<string, nat>,
    avgGuessTime: map<string, real>,
    merchants: MerchantStats)

  datatype TeamCountryStats = TeamCountryStats(base: PairCountryStats, avgScoreDiff: real, hitRate: real, winRate: real)

  type CountryRow = (string, TeamCountryStats)

  datatype TeamReport = TeamReport(
    overall: TeamOverall,
    countries: seq<CountryRow>,
    top10: seq<CountryRow>,
    bottom10: seq<CountryRow>)

  /** The overall block (lines 185-205): each rate times its denominator
      gives back what it counts, and is 0 where the denominator is 0. */
  function Overall(a: TeamAcc): (o: TeamOverall)
    requires AccOk(a)
    ensures o.totalGames == a.counters.games
    ensures a.counters.games > 0 ==> && Averages(o.winPercentage, a.counters.games, a.counters.wins as real)
                                     && Averages(o.avgRoundsPerGame, a.counters.games, a.counters.rounds as real)
    ensures a.counters.games == 0 ==> o.winPercentage == 0.0 && o.avgRoundsPerGame == 0.0
    ensures o.contributionPercent.Keys == a.players.contrib.Keys
    ensures forall p | p in o.contributionPercent :: 0.0 < o.contributionPercent[p] <= 1.0
    ensures o.avgIndividualScore.Keys == a.players.scores.Keys
    ensures o.playerTotal5ks == a.players.fiveKs
    ensures o.avgGuessTime.Keys == a.time.Keys
    ensures o.merchants == MerchantStats(a.counters.multi, a.counters.reverse)
  {
    var t := a.players;
    TeamOverall(
      a.counters.games,
      Ratio(a.counters.wins as real, a.counters.games),
      Ratio(a.counters.rounds as real, a.counters.games),
      Shares(t.contrib, t.rounds),
      PerKey(map p | p in t.scores :: t.scores[p] as real, t.rounds),
      t.fiveKs,
      PerKey(a.time, a.timeRounds),
      MerchantStats(a.counters.multi, a.counters.reverse))
  }

  /** Player `p`'s entries in the overall block: its contribution share,
      average score and average guess time, each times its number of rounds
      (timed rounds for the time), give back its credited rounds, its score
      total and its time total; a player without rounds averages 0. */
  lemma OverallPlayer(a: TeamAcc, p: string)
    requires AccOk(a)
    ensures var o := Overall(a);
      && (p in a.players.contrib ==>
            Averages(o.contributionPercent[p], a.players.rounds[p], a.players.contrib[p] as real))
      && (p in a.players.scores && GetNat(a.players.rounds, p) > 0 ==>
            Averages(o.avgIndividualScore[p], a.players.rounds[p], a.players.scores[p] as real))
      && (p in a.players.scores && GetNat(a.players.rounds, p) == 0 ==> o.avgIndividualScore[p] == 0.0)
      && (p in a.time ==> Averages(o.avgGuessTime[p], a.timeRounds[p], a.time[p]))
  {
  }

  /** One finalised country (lines 210-238). */
  function FinishCountry(c: TeamCountry, hits: HitTally): (s: TeamCountryStats)
    requires TeamCountryOk(c)
    ensures s.base == FinishPairCountry(c.core)
    ensures s.base.rounds == c.core.rounds
    ensures Averages(s.avgScoreDiff, c.core.rounds, SumInts(c.scoreDiffs) as real)
    ensures Averages(s.winRate, c.core.rounds, c.wins as real) && 0.0 <= s.winRate <= 1.0
    ensures hits.total > 0 ==> Averages(s.hitRate, hits.total, hits.correct as real)
    ensures hits.total == 0 ==> s.hitRate == 0.0
    ensures hits.correct <= hits.total ==> 0.0 <= s.hitRate <= 1.0
    ensures c.core.rounds == 0 ==> s.winRate == 0.0 && s.avgScoreDiff == 0.0
  {
    TeamCountryStats(
      FinishPairCountry(c.core),
      MeanInts(c.scoreDiffs),
      Ratio(hits.correct as real, hits.total),
      CountRate(c.wins, c.core.rounds))
  }

  /** `results["countries"]` before sorting: one row per bucket, in the
      order the buckets were created. */
  function Rows(keys: seq<string>, table: map<string, TeamCountry>, hits: map<string, HitTally>)
    : (r: seq<CountryRow>)
    requires forall i | 0 <= i < |keys| :: keys[i] in table && TeamCountryOk(table[keys[i]])
    ensures |r| == |keys|
    ensures forall i | 0 <= i < |r| ::
      r[i].0 == keys[i] && r[i].1 == FinishCountry(table[keys[i]], TallyOf(hits, keys[i]))
  {
    if |keys| == 0 then []
    else
      var k := keys[|keys| - 1];
      Rows(keys[..|keys| - 1], table, hits) + [(k, FinishCountry(table[k], TallyOf(hits, k)))]
  }

  function ScoreDiffKey(row: CountryRow): real {
    row.1.avgScoreDiff
  }

  /** Countries with enough rounds to be ranked. */
  predicate Eligible(row: CountryRow) {
    row.1.base.rounds >= 20
  }

  function Report(a: TeamAcc, geo: Geocoder): (r: TeamReport)
    requires AccOk(a)
    ensures r.overall == Overall(a)
    ensures multiset(r.countries) == multiset(Rows(a.countries.keys, a.countries.table, Resolve(a.queue, geo)))
    ensures NonIncreasing(r.countries, ScoreDiffKey)
    ensures r.top10 == Top(Filter(r.countries, Eligible), 10)
    ensures r.bottom10 == Bottom(Filter(r.countries, Eligible), 10)
  {
    var rows := Rows(a.countries.keys, a.countries.table, Resolve(a.queue, geo));
    var ranked := SortDesc(rows, ScoreDiffKey);
    var eligible := Filter(ranked, Eligible);
    TeamReport(Overall(a), ranked, Top(eligible, 10), Bottom(eligible, 10))
  }

  /** `process_games(games, mapsize)` with the reverse geocoder as `geo`. */
  function ProcessGames(games: seq<TeamGame>, mapsize: real, geo: Geocoder): (r: Result<TeamReport, Fault>)
    ensures r.Ok? <==> forall i | 0 <= i < |games| :: GameFits(games[i], mapsize)
    ensures r.Ok? <==> FoldGames(games, mapsize).Ok?
    ensures r.Ok? ==> r.value == Report(FoldGames(games, mapsize).value, geo)
  {
    AllFitIff(games, mapsize);
    match FoldGames(games, mapsize)
    case Err(e) => Err(e)
    case Ok(a) => Ok(Report(a, geo))
  }

  // ---------------------------------------------------------------------
  // Properties of the report

  /** No game is both kinds of merchant, so together they never exceed the
      number of games. */
  lemma {:induction false} MerchantGamesBounded(gs: seq<TeamGame>)
    ensures CountWhere(gs, MultiMerchantGame) + CountWhere(gs, ReverseMerchantGame) <= |gs|
    ensures CountWhere(gs, WonGame) <= |gs|
  {
    if |gs| > 0 {
      var g := gs[|gs| - 1];
      MerchantGamesBounded(gs[..|gs| - 1]);
      MerchantsExclusive(g.teamStats.totalHealthChange, g.teamStats.scoreDiff.GetOr(0));
    }
  }

  /** No games: an empty report with zero rates rather than a division by
      zero. */
  lemma TeamEmptyInput(mapsize: real, geo: Geocoder)
    ensures ProcessGames([], mapsize, geo)
      == Ok(TeamReport(TeamOverall(0, 0.0, 0.0, map[], map[], map[], map[], MerchantStats(0, 0)), [], [], []))
  {
    var a := EmptyAcc();
    assert Rows(a.countries.keys, a.countries.table, Resolve(a.queue, geo)) == [];
    assert Overall(a) == TeamOverall(0, 0.0, 0.0, map[], map[], map[], map[], MerchantStats(0, 0));
  }

  /** The overall block of a successful run: game count, win percentage and
      average rounds over all games, merchant counts, and contribution
      shares in (0, 1]. */
  lemma TeamOverallFacts(games: seq<TeamGame>, mapsize: real, geo: Geocoder)
    requires ProcessGames(games, mapsize, geo).Ok?
    ensures var o := ProcessGames(games, mapsize, geo).value.overall;
      && o.totalGames == |games|
      && o.winPercentage == Ratio(CountWhere(games, WonGame) as real, |games|)
      && 0.0 <= o.winPercentage <= 1.0
      && o.avgRoundsPerGame == Ratio(RoundsPlayed(games) as real, |games|)
      && o.merchants == MerchantStats(CountWhere(games, MultiMerchantGame), CountWhere(games, ReverseMerchantGame))
      && o.merchants.multiMerchant + o.merchants.reverseMerchant <= o.totalGames
      && forall p | p in o.contributionPercent :: 0.0 < o.contributionPercent[p] <= 1.0
  {
    MerchantGamesBounded(games);
  }

  /** Each bucket's hit tally covers exactly its country rounds, and its
      correct count is the number of those rounds whose picked guess
      geocodes to the bucket's country. */
  lemma HitTalliesMatchRounds(a: TeamAcc, geo: Geocoder, k: string)
    requires AccOk(a)
    requires k in a.countries.table
    ensures TallyOf(Resolve(a.queue, geo), k) == Expected(a.queue, geo, k)
    ensures TallyOf(Resolve(a.queue, geo), k).total == a.countries.table[k].core.rounds
  {
    assert CountCountry(a.queue, k) == BucketRounds(a.countries, k);
  }

  /** A finalised bucket row: its country is a bucket, its round count is
      the bucket's, and its rates lie in [0, 1]. */
  lemma RowRates(keys: seq<string>, table: map<string, TeamCountry>, q: seq<Queued>, geo: Geocoder, row: CountryRow)
    requires forall i | 0 <= i < |keys| :: keys[i] in table && TeamCountryOk(table[keys[i]])
    requires row in Rows(keys, table, Resolve(q, geo))
    ensures row.0 in table
    ensures row.1.base.rounds == table[row.0].core.rounds
    ensures 0.0 <= row.1.hitRate <= 1.0
    ensures 0.0 <= row.1.winRate <= 1.0
  {
    var hits := Resolve(q, geo);
    var rows := Rows(keys, table, hits);
    var j :| 0 <= j < |rows| && rows[j] == row;
    assert TallyOf(hits, keys[j]) == Expected(q, geo, keys[j]);
  }


  /** Every reported country is a bucket, with hit rate and win rate in
      [0, 1]. */
  lemma TeamCountryRates(a: TeamAcc, geo: Geocoder)
    requires AccOk(a)
    ensures var r := Report(a, geo);
      forall i | 0 <= i < |r.countries| ::
        && r.countries[i].0 in a.countries.table
        && r.countries[i].1.base.rounds == a.countries.table[r.countries[i].0].core.rounds
        && 0.0 <= r.countries[i].1.hitRate <= 1.0
        && 0.0 <= r.countries[i].1.winRate <= 1.0
  {
    var r := Report(a, geo);
    assert forall i | 0 <= i < |a.countries.keys| :: a.countries.keys[i] in a.countries.table;
    PermutedRowRates(a.countries.keys, a.countries.table, a.queue, geo, r.countries);
  }

  /** Any reordering of the finalised bucket rows keeps the facts of
      `RowRates` row by row. */
  lemma PermutedRowRates(keys: seq<string>, table: map<string, TeamCountry>, q: seq<Queued>, geo: Geocoder,
                         countries: seq<CountryRow>)
    requires forall i | 0 <= i < |keys| :: keys[i] in table && TeamCountryOk(table[keys[i]])
    requires multiset(countries) == multiset(Rows(keys, table, Resolve(q, geo)))
    ensures forall i | 0 <= i < |countries| ::
      && countries[i].0 in table
      && countries[i].1.base.rounds == table[countries[i].0].core.rounds
      && 0.0 <= countries[i].1.hitRate <= 1.0
      && 0.0 <= countries[i].1.winRate <= 1.0
  {
    var rows := Rows(keys, table, Resolve(q, geo));
    forall i | 0 <= i < |countries|
      ensures countries[i].0 in table
      ensures countries[i].1.base.rounds == table[countries[i].0].core.rounds
      ensures 0.0 <= countries[i].1.hitRate <= 1.0
      ensures 0.0 <= countries[i].1.winRate <= 1.0
    {
      assert countries[i] in multiset(rows);
      RowRates(keys, table, q, geo, countries[i]);
    }
  }

  /** Every country row of a successful run counts exactly the games' rounds
      whose country lower-cases to the row's country. */
  lemma TeamCountryRounds(games: seq<TeamGame>, mapsize: real, geo: Geocoder, i: int)
    requires ProcessGames(games, mapsize, geo).Ok?
    requires 0 <= i < |ProcessGames(games, mapsize, geo).value.countries|
    ensures var row := ProcessGames(games, mapsize, geo).value.countries[i];
      row.1.base.rounds == CountryRounds(games, row.0)
  {
    var a := FoldGames(games, mapsize).value;
    var row := ProcessGames(games, mapsize, geo).value.countries[i];
    TeamCountryRates(a, geo);
    FoldBuckets(games, mapsize, row.0);
  }

  /** The ranking: countries ordered by average score difference, and both
      views drawn, in ranked order, from the countries with 20 or more
      rounds. */
  lemma TeamRanking(a: TeamAcc, geo: Geocoder)
    requires AccOk(a)
    ensures var r := Report(a, geo);
      && NonIncreasing(r.countries, ScoreDiffKey)
      && Subsequence(Filter(r.countries, Eligible), r.countries)
      && (forall i | 0 <= i < |r.top10| :: r.top10[i].1.base.rounds >= 20)
      && (forall i | 0 <= i < |r.bottom10| :: r.bottom10[i].1.base.rounds >= 20)
  {
    var r := Report(a, geo);
    RankedViews(r.countries, Eligible, ScoreDiffKey, 10);
  }

  /** The top view dominates every other eligible country and the bottom
      view is dominated by them. */
  lemma TeamViewsExtremes(a: TeamAcc, geo: Geocoder)
    requires AccOk(a)
    ensures var r := Report(a, geo);
      var eligible := Filter(r.countries, Eligible);
      && (forall i, j | 0 <= i < |r.top10| <= j < |eligible| :: ScoreDiffKey(r.top10[i]) >= ScoreDiffKey(eligible[j]))
      && (forall i, j | 0 <= j < |eligible| - |r.bottom10| && 0 <= i < |r.bottom10| ::
            ScoreDiffKey(eligible[j]) >= ScoreDiffKey(r.bottom10[i]))
  {
    ViewsExtremes(Report(a, geo));
  }

  /** `TeamViewsExtremes` for any report whose views are cut from its ranked
      eligible countries. */
  lemma ViewsExtremes(r: TeamReport)
    requires NonIncreasing(r.countries, ScoreDiffKey)
    requires r.top10 == Top(Filter(r.countries, Eligible), 10)
    requires r.bottom10 == Bottom(Filter(r.countries, Eligible), 10)
    ensures var eligible := Filter(r.countries, Eligible);
      && (forall i, j | 0 <= i < |r.top10| <= j < |eligible| :: ScoreDiffKey(r.top10[i]) >= ScoreDiffKey(eligible[j]))
      && (forall i, j | 0 <= j < |eligible| - |r.bottom10| && 0 <= i < |r.bottom10| ::
            ScoreDiffKey(eligible[j]) >= ScoreDiffKey(r.bottom10[i]))
  {
    FilterKeepsOrder(r.countries, Eligible, ScoreDiffKey);
    ViewsAreExtremes(Filter(r.countries, Eligible), ScoreDiffKey, 10);
  }

  /** With `roundStats` numbered 1, 2, ... in every game, the enemy-best
      lookup never runs past the end. */
  lemma AlignedGamesNeverMissRoundStat(games: seq<TeamGame>, mapsize: real, geo: Geocoder)
    requires forall i | 0 <= i < |games| :: Aligned(games[i])
    ensures !ProcessGames(games, mapsize, geo).Err? || !ProcessGames(games, mapsize, geo).error.RoundStatMissing?
  {
  }

  /** Only the first two entries of `playerStats` are read: a game with more
      players aggregates exactly like its first two. */
  lemma ExtraPlayersIgnored(a: TeamAcc, g: TeamGame, mapsize: real)
    requires AccOk(a)
    requires |g.playerStats| >= 2
    ensures GameStep(a, g, mapsize) == GameStep(a, g.(playerStats := g.playerStats[..2]), mapsize)
  {
    var g' := g.(playerStats := g.playerStats[..2]);
    assert g'.playerStats[0] == g.playerStats[0] && g'.playerStats[1] == g.playerStats[1];
    assert CountGame(a.counters, g') == CountGame(a.counters, g);
  }

  /** A three-player game is aggregated rather than skipped. */
  lemma ThreePlayerGameIsCounted(geo: Geocoder)
    ensures var g := TeamGame("g3", "t", TeamStats(0.0, 0, 1, 0, Some(0)),
                              [PlayerStats("a", 0.0, 0, []), PlayerStats("b", 0.0, 0, []), PlayerStats("c", 0.0, 0, [])],
                              [RoundStat(1, 0.0, 0, 0, [], 0)]);
      var r := ProcessGames([g], DefaultMapSize, geo);
      r.Ok? && r.value.overall.totalGames == 1
  {
    var g := TeamGame("g3", "t", TeamStats(0.0, 0, 1, 0, Some(0)),
                      [PlayerStats("a", 0.0, 0, []), PlayerStats("b", 0.0, 0, []), PlayerStats("c", 0.0, 0, [])],
                      [RoundStat(1, 0.0, 0, 0, [], 0)]);
    var a := EmptyAcc();
    var pr := ReadRound([], [], 1, DefaultMapSize);
    assert pr.country.None?;
    assert RoundsUpTo(a.(counters := CountGame(a.counters, g)), "g3", g.roundStats,
                      g.playerStats[0], g.playerStats[1], 0, DefaultMapSize).Ok?;
    assert GameStep(a, g, DefaultMapSize).Ok?;
    assert [g][..0] == [];
  }

  /** The round step of `MissingTeammateGuessFaults`. */
  lemma MissingGuessRoundFaults(a: TeamAcc, guess: Guess, stats: seq<RoundStat>)
    requires AccOk(a)
    requires guess == Guess(1, 9000000.0, 0, None, Some("FR"), 10.0, 20.0)
    ensures RoundStep(a, "g", stats, PlayerStats("a", 0.0, 0, [guess]), PlayerStats("b", 0.0, 0, []), 1, DefaultMapSize)
      == Err(NoGuessToGeocode("g", 1))
  {
    assert FindGuess([guess], 1) == Some(guess);
    var pr := ReadRound([guess], [], 1, DefaultMapSize);
    assert pr.country == Some("FR");
    assert pr.one.score == 0 && pr.two.score == 0 && pr.two.guess.None?;
  }

  /** A country round where the first player scored 0 and the second did not
      guess picks the second player's missing guess for geocoding and raises. */
  lemma MissingTeammateGuessFaults(geo: Geocoder)
    ensures var guess := Guess(1, 9000000.0, 0, None, Some("FR"), 10.0, 20.0);
      var g := TeamGame("g", "t", TeamStats(0.0, 0, 1, 0, Some(0)),
                        [PlayerStats("a", 0.0, 0, [guess]), PlayerStats("b", 0.0, 0, [])],
                        [RoundStat(1, 0.0, 0, 0, ["fr"], 0)]);
      ProcessGames([g], DefaultMapSize, geo) == Err(NoGuessToGeocode("g", 1))
  {
    var guess := Guess(1, 9000000.0, 0, None, Some("FR"), 10.0, 20.0);
    var g := TeamGame("g", "t", TeamStats(0.0, 0, 1, 0, Some(0)),
                      [PlayerStats("a", 0.0, 0, [guess]), PlayerStats("b", 0.0, 0, [])],
                      [RoundStat(1, 0.0, 0, 0, ["fr"], 0)]);
    var p1 := PlayerStats("a", 0.0, 0, [guess]);
    var p2 := PlayerStats("b", 0.0, 0, []);
    var a0 := EmptyAcc();
    var a := a0.(counters := CountGame(a0.counters, g));
    MissingGuessRoundFaults(a, guess, g.roundStats);
    assert RoundsUpTo(a, "g", g.roundStats, p1, p2, 0, DefaultMapSize) == Ok(a);
    assert RoundsUpTo(a, "g", g.roundStats, p1, p2, 1, DefaultMapSize) == Err(NoGuessToGeocode("g", 1));
    assert LastRound(g) == 1;
    assert GameStep(a0, g, DefaultMapSize) == Err(NoGuessToGeocode("g", 1));
    assert [g][..0] == [];
    assert FoldGames([g], DefaultMapSize) == Err(NoGuessToGeocode("g", 1));
  }
}
