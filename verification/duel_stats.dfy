/** The solo-duel aggregation `process_duels` (geoguessr/process_stats.py,
    lines 257-418): the same shape of report as the team aggregation, but
    for one player. Health and score difference come from summing the
    per-round `roundStats`; a round the player did not guess still counts
    for the round's own country, scored 0, and queues nothing for the hit
    rate. Nothing in this path raises. */
module SoloDuels {
  import opened Common
  import opened Records
  import opened PairRounds
  import opened HitRate
  import opened Ordered
  import opened Ranking

  /** A solo country bucket. */
  datatype DuelCountry = DuelCountry(
    rounds: nat,
    scores: seq<int>,
    distances: seq<real>,
    fiveKs: nat,
    scoreDiffs: seq<int>,
    wins: nat)

  function NewDuelCountry(): (c: DuelCountry)
    ensures DuelCountryOk(c) && c.rounds == 0
  {
    DuelCountry(0, [], [], 0, [], 0)
  }

  /** One entry per round in every list; `fiveKs` and `wins` count the 5000
      scores and the positive differences. */
  ghost predicate DuelCountryOk(c: DuelCountry) {
    && |c.scores| == c.rounds
    && |c.distances| == c.rounds
    && |c.scoreDiffs| == c.rounds
    && c.fiveKs == CountWhere(c.scores, IsFiveK)
    && c.wins == CountPositive(c.scoreDiffs)
  }

  /** The player's running totals. */
  datatype SoloTotals = SoloTotals(score: int, distance: real, fiveKs: nat, time: real, timeRounds: nat)

  datatype DuelAcc = DuelAcc(
    counters: Counters,
    totals: SoloTotals,
    queue: seq<Queued>,
    countries: Dict<string, DuelCountry>)

  function DuelBucketRounds(d: Dict<string, DuelCountry>, k: string): nat {
    if k in d.table then d.table[k].rounds else 0
  }

  /** Bucket `k`, or the fresh bucket `defaultdict` would create. */
  function DuelBucketOf(d: Dict<string, DuelCountry>, k: string): DuelCountry {
    if k in d.table then d.table[k] else NewDuelCountry()
  }

  /** Buckets well formed, and at most one queued guess per country round:
      rounds without a guess queue nothing. */
  ghost predicate DuelAccOk(a: DuelAcc) {
    && a.countries.Valid()
    && (forall k | k in a.countries.table :: DuelCountryOk(a.countries.table[k]))
    && (forall k {:trigger CountCountry(a.queue, k)} :: CountCountry(a.queue, k) <= DuelBucketRounds(a.countries, k))
  }

  function EmptyDuelAcc(): (a: DuelAcc)
    ensures DuelAccOk(a)
    ensures a.counters == Counters(0, 0, 0, 0, 0) && a.totals == SoloTotals(0, 0.0, 0, 0.0, 0)
  {
    DuelAcc(Counters(0, 0, 0, 0, 0), SoloTotals(0, 0.0, 0, 0.0, 0), [], Empty())
  }

  /** The player's guess for round `rn` and the round's own record, with the
      round's country as fallback when the guess has none. */
  datatype SoloRound = SoloRound(side: Side, stat: Option<DuelRoundStat>, country: Option<string>)

  function ReadSoloRound(g: DuelGame, rn: int, mapsize: real): (sr: SoloRound)
    ensures sr.side == SideOf(FindGuess(g.playerStats.rounds, rn), mapsize)
    ensures sr.stat == FindDuelRound(g.roundStats, rn)
    ensures sr.side.guess.Some? && sr.side.guess.value.country.Some? ==> sr.country == sr.side.guess.value.country
    ensures sr.country.Some? && sr.side.guess.None? ==> sr.stat.Some? && sr.country == sr.stat.value.country
    ensures (sr.side.guess.None? || sr.side.guess.value.country.None?) && sr.stat.Some? ==> sr.country == sr.stat.value.country
    ensures sr.country.None? <==> (sr.side.guess.None? || sr.side.guess.value.country.None?)
                                  && (sr.stat.None? || sr.stat.value.country.None?)
  {
    var side := SideOf(FindGuess(g.playerStats.rounds, rn), mapsize);
    var rs := FindDuelRound(g.roundStats, rn);
    var c0 := if side.guess.Some? then side.guess.value.country else None;
    var country := if c0.None? && rs.Some? then rs.value.country else c0;
    SoloRound(side, rs, country)
  }

  /** The running totals after one round (lines 330-338): the round's
      score and distance are added, its time and one timed round when it
      has a time, and one 5k when it scored 5000. */
  function CreditSolo(t: SoloTotals, s: Side): (r: SoloTotals)
    ensures r.score - t.score == s.score && r.distance - t.distance == s.distance
    ensures s.time.Some? ==> r.time - t.time == s.time.value && r.timeRounds == t.timeRounds + 1
    ensures s.time.None? ==> r.time == t.time && r.timeRounds == t.timeRounds
    ensures r.fiveKs == t.fiveKs + (if IsFiveK(s.score) then 1 else 0)
  {
    SoloTotals(
      t.score + s.score,
      t.distance + s.distance,
      t.fiveKs + (if IsFiveK(s.score) then 1 else 0),
      t.time + s.time.GetOr(0.0),
      t.timeRounds + (if s.time.Some? then 1 else 0))
  }

  /** One more round in a bucket: its score, distance and difference
      against the enemy's round score. */
  function AddDuelRound(c: DuelCountry, score: int, distance: real, enemy: int): (r: DuelCountry)
    requires DuelCountryOk(c)
    ensures DuelCountryOk(r)
    ensures r.rounds == c.rounds + 1
    ensures r.scores == c.scores + [score] && r.distances == c.distances + [distance]
    ensures r.fiveKs == c.fiveKs + (if IsFiveK(score) then 1 else 0)
    ensures r.scoreDiffs == c.scoreDiffs + [score - enemy]
    ensures r.wins == c.wins + (if score > enemy then 1 else 0)
  {
    var diff := score - enemy;
    CountWhereAppend(c.scores, score, IsFiveK);
    CountPositiveAppend(c.scoreDiffs, diff);
    DuelCountry(
      c.rounds + 1,
      c.scores + [score],
      c.distances + [distance],
      c.fiveKs + (if IsFiveK(score) then 1 else 0),
      c.scoreDiffs + [diff],
      c.wins + (if diff > 0 then 1 else 0))
  }

  /** Queue the guess's coordinate for bucket `k`, when there is a guess. */
  function Enqueue(q: seq<Queued>, guess: Option<Guess>, k: string): (r: seq<Queued>)
    ensures guess.None? ==> r == q
    ensures guess.Some? ==> r == q + [Queued(Coord(guess.value.lat, guess.value.lng), k)]
  {
    match guess
    case None => q
    case Some(g) => q + [Queued(Coord(g.lat, g.lng), k)]
  }

  /** Growing bucket `k` by one round while queueing at most one guess for
      it keeps the invariant. */
  lemma BucketGrows(a: DuelAcc, k: string, c: DuelCountry, guess: Option<Guess>)
    requires DuelAccOk(a)
    requires DuelCountryOk(c) && c.rounds == DuelBucketRounds(a.countries, k) + 1
    ensures DuelAccOk(a.(queue := Enqueue(a.queue, guess, k), countries := Put(a.countries, k, c)))
  {
    QueueStaysBounded(a.queue, a.countries, k, c, guess);
  }

  /** The per-country guess bound survives one more round for `k`. */
  lemma QueueStaysBounded(q: seq<Queued>, d: Dict<string, DuelCountry>, k: string, c: DuelCountry, guess: Option<Guess>)
    requires forall j :: CountCountry(q, j) <= DuelBucketRounds(d, j)
    requires c.rounds == DuelBucketRounds(d, k) + 1
    ensures forall j :: CountCountry(Enqueue(q, guess, k), j) <= DuelBucketRounds(Put(d, k, c), j)
  {
    var q' := Enqueue(q, guess, k);
    forall j
      ensures CountCountry(q', j) <= DuelBucketRounds(Put(d, k, c), j)
    {
      if guess.Some? {
        CountCountryAppend(q, q'[|q'| - 1], j);
      }
    }
  }

  /** The enemy's score for the round, 0 when the round has no record. */
  function EnemyScore(sr: SoloRound): int {
    if sr.stat.Some? then sr.stat.value.enemyScore else 0
  }

  /** The country branch (lines 340-363): bucket `k` gains the round, the
      guess (if any) is queued for it, and the totals stay as they were. */
  function DuelCountryStep(a: DuelAcc, k: string, sr: SoloRound): (r: DuelAcc)
    requires DuelAccOk(a)
    ensures DuelAccOk(r)
    ensures r.counters == a.counters && r.totals == a.totals
    ensures r.queue == Enqueue(a.queue, sr.side.guess, k)
    ensures r.countries == Put(a.countries, k, AddDuelRound(DuelBucketOf(a.countries, k), sr.side.score,
                                                           sr.side.distance, EnemyScore(sr)))
  {
    var c := DuelBucketOf(a.countries, k);
    var enemy := EnemyScore(sr);
    var c' := AddDuelRound(c, sr.side.score, sr.side.distance, enemy);
    BucketGrows(a, k, c', sr.side.guess);
    a.(queue := Enqueue(a.queue, sr.side.guess, k), countries := Put(a.countries, k, c'))
  }

  /** The country step touches bucket `k` only: it gains one round with the
      score, distance and difference against the enemy's round score, a new
      `k` is listed last, and every other bucket stays as it was. */
  lemma DuelCountryStepBuckets(a: DuelAcc, k: string, sr: SoloRound, j: string)
    requires DuelAccOk(a)
    ensures var r := DuelCountryStep(a, k, sr);
      && DuelBucketOf(r.countries, j)
         == (if j == k then AddDuelRound(DuelBucketOf(a.countries, k), sr.side.score, sr.side.distance, EnemyScore(sr))
             else DuelBucketOf(a.countries, j))
      && DuelBucketRounds(r.countries, j) == DuelBucketRounds(a.countries, j) + (if j == k then 1 else 0)
      && r.countries.keys == (if k in a.countries.table then a.countries.keys else a.countries.keys + [k])
  {
  }

  /** Round `rn` lands in bucket `k`: its country (the guess's, else the
      round's own) lower-cases to `k`. */
  predicate DuelLandsIn(g: DuelGame, rn: int, mapsize: real, k: string) {
    var c := ReadSoloRound(g, rn, mapsize).country;
    c.Some? && Lower(c.value) == k
  }

  /** One round `rn` of a solo game (lines 315-363): the totals take the
      round whether or not it has a country; a guess is queued only for a
      round with a country. */
  function DuelRoundStep(a: DuelAcc, g: DuelGame, rn: int, mapsize: real): (r: DuelAcc)
    requires DuelAccOk(a)
    ensures DuelAccOk(r)
    ensures r.counters == a.counters
    ensures r.totals == CreditSolo(a.totals, ReadSoloRound(g, rn, mapsize).side)
    ensures var sr := ReadSoloRound(g, rn, mapsize);
      r.queue == (if sr.country.Some? then Enqueue(a.queue, sr.side.guess, Lower(sr.country.value)) else a.queue)
  {
    var sr := ReadSoloRound(g, rn, mapsize);
    var a1 := a.(totals := CreditSolo(a.totals, sr.side));
    match sr.country
    case None => a1
    case Some(country) => DuelCountryStep(a1, Lower(country), sr)
  }

  /** A round without a country leaves the buckets alone; a round with one
      adds one round to the bucket of its lower-cased country and leaves
      every other bucket as it was. */
  lemma DuelRoundBuckets(a: DuelAcc, g: DuelGame, rn: int, mapsize: real, j: string)
    requires DuelAccOk(a)
    ensures var r := DuelRoundStep(a, g, rn, mapsize);
      && DuelBucketRounds(r.countries, j)
         == DuelBucketRounds(a.countries, j) + (if DuelLandsIn(g, rn, mapsize, j) then 1 else 0)
      && (!DuelLandsIn(g, rn, mapsize, j) ==> DuelBucketOf(r.countries, j) == DuelBucketOf(a.countries, j))
  {
    var sr := ReadSoloRound(g, rn, mapsize);
    var a1 := a.(totals := CreditSolo(a.totals, sr.side));
    if sr.country.Some? {
      var k := Lower(sr.country.value);
      assert DuelRoundStep(a, g, rn, mapsize) == DuelCountryStep(a1, k, sr);
      DuelCountryStepBuckets(a1, k, sr, j);
    }
  }

  /** The bucket a round lands in records the player's score and distance
      and the difference against the enemy's round score (0 without a round
      record). */
  lemma DuelRoundBucket(a: DuelAcc, g: DuelGame, rn: int, mapsize: real, j: string)
    requires DuelAccOk(a)
    requires DuelLandsIn(g, rn, mapsize, j)
    ensures var sr := ReadSoloRound(g, rn, mapsize);
      DuelBucketOf(DuelRoundStep(a, g, rn, mapsize).countries, j)
        == AddDuelRound(DuelBucketOf(a.countries, j), sr.side.score, sr.side.distance, EnemyScore(sr))
  {
    var sr := ReadSoloRound(g, rn, mapsize);
    var a1 := a.(totals := CreditSolo(a.totals, sr.side));
    assert DuelRoundStep(a, g, rn, mapsize) == DuelCountryStep(a1, j, sr);
    DuelCountryStepBuckets(a1, j, sr, j);
  }

  function DuelRoundsUpTo(a: DuelAcc, g: DuelGame, n: nat, mapsize: real): (r: DuelAcc)
    requires DuelAccOk(a)
    ensures DuelAccOk(r)
    ensures r.counters == a.counters
    ensures r.totals.fiveKs <= a.totals.fiveKs + n && r.totals.timeRounds <= a.totals.timeRounds + n
  {
    if n == 0 then a
    else DuelRoundStep(DuelRoundsUpTo(a, g, n - 1, mapsize), g, n, mapsize)
  }

  /** Rounds among `1..n` of game `g` that land in bucket `k`. */
  function DuelBucketCount(g: DuelGame, n: nat, mapsize: real, k: string): nat {
    if n == 0 then 0 else DuelBucketCount(g, n - 1, mapsize, k) + (if DuelLandsIn(g, n, mapsize, k) then 1 else 0)
  }

  /** The player's scores of rounds `1..n` of game `g` (0 for a round it
      did not guess). */
  function ScoreSum(g: DuelGame, n: nat, mapsize: real): int {
    if n == 0 then 0 else ScoreSum(g, n - 1, mapsize) + ReadSoloRound(g, n, mapsize).side.score
  }

  /** 5000-point rounds among `1..n` of game `g`. */
  function FiveKCount(g: DuelGame, n: nat, mapsize: real): nat {
    if n == 0 then 0
    else FiveKCount(g, n - 1, mapsize) + (if IsFiveK(ReadSoloRound(g, n, mapsize).side.score) then 1 else 0)
  }

  /** Guess time over the timed rounds among `1..n` of game `g`. */
  function TimeSum(g: DuelGame, n: nat, mapsize: real): real {
    if n == 0 then 0.0 else TimeSum(g, n - 1, mapsize) + ReadSoloRound(g, n, mapsize).side.time.GetOr(0.0)
  }

  /** Timed rounds among `1..n` of game `g`. */
  function TimedCount(g: DuelGame, n: nat, mapsize: real): nat {
    if n == 0 then 0
    else TimedCount(g, n - 1, mapsize) + (if ReadSoloRound(g, n, mapsize).side.time.Some? then 1 else 0)
  }

  /** Round `n` moves bucket `k` on by exactly the step `DuelBucketCount`
      takes at `n`. */
  lemma DuelRoundCount(a: DuelAcc, g: DuelGame, n: nat, mapsize: real, k: string)
    requires DuelAccOk(a)
    requires n > 0
    ensures DuelBucketRounds(DuelRoundsUpTo(a, g, n, mapsize).countries, k) + DuelBucketCount(g, n - 1, mapsize, k)
         == DuelBucketRounds(DuelRoundsUpTo(a, g, n - 1, mapsize).countries, k) + DuelBucketCount(g, n, mapsize, k)
  {
    DuelRoundBuckets(DuelRoundsUpTo(a, g, n - 1, mapsize), g, n, mapsize, k);
  }

  /** After rounds `1..n`, bucket `k` holds as many more rounds as there are
      rounds among `1..n` that land in it. */
  lemma DuelRoundsUpToBuckets(a: DuelAcc, g: DuelGame, n: nat, mapsize: real, k: string)
    requires DuelAccOk(a)
    ensures DuelBucketRounds(DuelRoundsUpTo(a, g, n, mapsize).countries, k)
         == DuelBucketRounds(a.countries, k) + DuelBucketCount(g, n, mapsize, k)
  {
    var i := 0;
    while i < n
      invariant i <= n
      invariant DuelBucketRounds(DuelRoundsUpTo(a, g, i, mapsize).countries, k)
             == DuelBucketRounds(a.countries, k) + DuelBucketCount(g, i, mapsize, k)
    {
      DuelRoundCount(a, g, i + 1, mapsize, k);
      i := i + 1;
    }
  }

  /** After rounds `1..n`, the score and 5k totals have grown by those
      rounds' scores and 5ks, whether or not the rounds have a country. */
  lemma DuelRoundsUpToTotals(a: DuelAcc, g: DuelGame, n: nat, mapsize: real)
    requires DuelAccOk(a)
    ensures var r := DuelRoundsUpTo(a, g, n, mapsize);
      && r.totals.score == a.totals.score + ScoreSum(g, n, mapsize)
      && r.totals.fiveKs == a.totals.fiveKs + FiveKCount(g, n, mapsize)
      && r.totals.time == a.totals.time + TimeSum(g, n, mapsize)
      && r.totals.timeRounds == a.totals.timeRounds + TimedCount(g, n, mapsize)
  {
    var i := 0;
    while i < n
      invariant i <= n
      invariant DuelRoundsUpTo(a, g, i, mapsize).totals.score == a.totals.score + ScoreSum(g, i, mapsize)
      invariant DuelRoundsUpTo(a, g, i, mapsize).totals.fiveKs == a.totals.fiveKs + FiveKCount(g, i, mapsize)
      invariant DuelRoundsUpTo(a, g, i, mapsize).totals.time == a.totals.time + TimeSum(g, i, mapsize)
      invariant DuelRoundsUpTo(a, g, i, mapsize).totals.timeRounds == a.totals.timeRounds + TimedCount(g, i, mapsize)
    {
      DuelRoundTotals(a, g, i + 1, mapsize);
      i := i + 1;
    }
  }

  /** Round `n` adds its score, and its 5k when it is one, to the totals. */
  lemma DuelRoundTotals(a: DuelAcc, g: DuelGame, n: nat, mapsize: real)
    requires DuelAccOk(a)
    requires n > 0
    ensures DuelRoundsUpTo(a, g, n, mapsize).totals.score + ScoreSum(g, n - 1, mapsize)
         == DuelRoundsUpTo(a, g, n - 1, mapsize).totals.score + ScoreSum(g, n, mapsize)
    ensures DuelRoundsUpTo(a, g, n, mapsize).totals.fiveKs + FiveKCount(g, n - 1, mapsize)
         == DuelRoundsUpTo(a, g, n - 1, mapsize).totals.fiveKs + FiveKCount(g, n, mapsize)
    ensures DuelRoundsUpTo(a, g, n, mapsize).totals.time + TimeSum(g, n - 1, mapsize)
         == DuelRoundsUpTo(a, g, n - 1, mapsize).totals.time + TimeSum(g, n, mapsize)
    ensures DuelRoundsUpTo(a, g, n, mapsize).totals.timeRounds + TimedCount(g, n - 1, mapsize)
         == DuelRoundsUpTo(a, g, n - 1, mapsize).totals.timeRounds + TimedCount(g, n, mapsize)
  {
  }

  function HealthChange(rs: seq<DuelRoundStat>): int {
    if |rs| == 0 then 0 else HealthChange(rs[..|rs| - 1]) + rs[|rs| - 1].totalHealthChange
  }

  function EnemyTotal(rs: seq<DuelRoundStat>): int {
    if |rs| == 0 then 0 else EnemyTotal(rs[..|rs| - 1]) + rs[|rs| - 1].enemyScore
  }

  function DuelScoreDiff(g: DuelGame): int {
    g.playerStats.totalScore - EnemyTotal(g.roundStats)
  }

  predicate WonDuel(g: DuelGame) {
    Won(HealthChange(g.roundStats))
  }

  predicate MultiMerchantDuel(g: DuelGame) {
    MultiMerchant(HealthChange(g.roundStats), DuelScoreDiff(g))
  }

  predicate ReverseMerchantDuel(g: DuelGame) {
    ReverseMerchant(HealthChange(g.roundStats), DuelScoreDiff(g))
  }

  function CountDuel(c: Counters, g: DuelGame): Counters {
    Counters(
      c.games + 1,
      c.wins + (if WonDuel(g) then 1 else 0),
      c.rounds + |g.roundStats|,
      c.multi + (if MultiMerchantDuel(g) then 1 else 0),
      c.reverse + (if ReverseMerchantDuel(g) then 1 else 0))
  }

  /** One solo game (lines 288-363): rounds 1 to `len(roundStats)`. */
  function DuelGameStep(a: DuelAcc, g: DuelGame, mapsize: real): (r: DuelAcc)
    requires DuelAccOk(a)
    ensures DuelAccOk(r)
    ensures r.counters == CountDuel(a.counters, g)
    ensures r.totals.fiveKs <= a.totals.fiveKs + |g.roundStats|
    ensures r.totals.timeRounds <= a.totals.timeRounds + |g.roundStats|
  {
    DuelRoundsUpTo(a.(counters := CountDuel(a.counters, g)), g, |g.roundStats|, mapsize)
  }

  function RoundsListed(gs: seq<DuelGame>): nat {
    if |gs| == 0 then 0 else RoundsListed(gs[..|gs| - 1]) + |gs[|gs| - 1].roundStats|
  }

  /** The whole game loop. The 5k and timed-round totals never exceed the
      rounds played. */
  function FoldDuels(gs: seq<DuelGame>, mapsize: real): (a: DuelAcc)
    ensures DuelAccOk(a)
    ensures a.counters == Counters(|gs|, CountWhere(gs, WonDuel), RoundsListed(gs),
                                   CountWhere(gs, MultiMerchantDuel), CountWhere(gs, ReverseMerchantDuel))
    ensures a.totals.fiveKs <= RoundsListed(gs) && a.totals.timeRounds <= RoundsListed(gs)
  {
    if |gs| == 0 then EmptyDuelAcc()
    else DuelGameStep(FoldDuels(gs[..|gs| - 1], mapsize), gs[|gs| - 1], mapsize)
  }

  /** Rounds of all games that land in bucket `k`. */
  function DuelCountryRounds(gs: seq<DuelGame>, mapsize: real, k: string): nat {
    if |gs| == 0 then 0
    else DuelCountryRounds(gs[..|gs| - 1], mapsize, k) + DuelBucketCount(gs[|gs| - 1], |gs[|gs| - 1].roundStats|, mapsize, k)
  }

  /** The player's scores over all rounds of all games. */
  function TotalScore(gs: seq<DuelGame>, mapsize: real): int {
    if |gs| == 0 then 0
    else TotalScore(gs[..|gs| - 1], mapsize) + ScoreSum(gs[|gs| - 1], |gs[|gs| - 1].roundStats|, mapsize)
  }

  /** 5000-point rounds over all games. */
  function TotalFiveKs(gs: seq<DuelGame>, mapsize: real): nat {
    if |gs| == 0 then 0
    else TotalFiveKs(gs[..|gs| - 1], mapsize) + FiveKCount(gs[|gs| - 1], |gs[|gs| - 1].roundStats|, mapsize)
  }

  /** Guess time over all timed rounds of all games. */
  function TotalTime(gs: seq<DuelGame>, mapsize: real): real {
    if |gs| == 0 then 0.0
    else TotalTime(gs[..|gs| - 1], mapsize) + TimeSum(gs[|gs| - 1], |gs[|gs| - 1].roundStats|, mapsize)
  }

  /** Timed rounds over all games. */
  function TotalTimedRounds(gs: seq<DuelGame>, mapsize: real): nat {
    if |gs| == 0 then 0
    else TotalTimedRounds(gs[..|gs| - 1], mapsize) + TimedCount(gs[|gs| - 1], |gs[|gs| - 1].roundStats|, mapsize)
  }

  /** After the loop, bucket `k` holds exactly the rounds that land in it,
      and the score and 5k totals are those of every round played. */
  lemma {:induction false} FoldDuelsSums(gs: seq<DuelGame>, mapsize: real, k: string)
    ensures var a := FoldDuels(gs, mapsize);
      && DuelBucketRounds(a.countries, k) == DuelCountryRounds(gs, mapsize, k)
      && a.totals.score == TotalScore(gs, mapsize)
      && a.totals.fiveKs == TotalFiveKs(gs, mapsize)
      && a.totals.time == TotalTime(gs, mapsize)
      && a.totals.timeRounds == TotalTimedRounds(gs, mapsize)
  {
    if |gs| > 0 {
      var init := gs[..|gs| - 1];
      var g := gs[|gs| - 1];
      FoldDuelsSums(init, mapsize, k);
      var a := FoldDuels(init, mapsize);
      var a0 := a.(counters := CountDuel(a.counters, g));
      DuelRoundsUpToBuckets(a0, g, |g.roundStats|, mapsize, k);
      DuelRoundsUpToTotals(a0, g, |g.roundStats|, mapsize);
    }
  }

  // ---------------------------------------------------------------------
  // The report (lines 365-418)

  datatype DuelOverall = DuelOverall(
    totalGames: nat,
    winPercentage: real,
    avgRoundsPerGame: real,
    avgScore: real,
    total5ks: nat,
    avgGuessTime: real,
    merchants: MerchantStats)

  datatype DuelCountryStats = DuelCountryStats(
    rounds: nat,
    avgScore: real,
    avgDistanceKm: real,
    fiveKRate: real,
    avgScoreDiff: real,
    hitRate: real,
    winRate: real)

  type DuelRow = (string, DuelCountryStats)

  datatype DuelReport = DuelReport(
    overall: DuelOverall,
    countries: seq<DuelRow>,
    top10: seq<DuelRow>,
    bottom10: seq<DuelRow>)

  /** The overall block (lines 379-387): each average times its
      denominator gives back what it averages, and is 0 where the
      denominator is 0. */
  function DuelOverallOf(a: DuelAcc): (o: DuelOverall)
    ensures o.totalGames == a.counters.games && o.total5ks == a.totals.fiveKs
    ensures a.counters.games > 0 ==> && Averages(o.winPercentage, a.counters.games, a.counters.wins as real)
                                     && Averages(o.avgRoundsPerGame, a.counters.games, a.counters.rounds as real)
    ensures a.counters.games == 0 ==> o.winPercentage == 0.0 && o.avgRoundsPerGame == 0.0
    ensures a.counters.rounds != 0 ==> Averages(o.avgScore, a.counters.rounds, a.totals.score as real)
    ensures a.counters.rounds == 0 ==> o.avgScore == 0.0
    ensures a.totals.timeRounds > 0 ==> Averages(o.avgGuessTime, a.totals.timeRounds, a.totals.time)
    ensures a.totals.timeRounds == 0 ==> o.avgGuessTime == 0.0
    ensures o.merchants == MerchantStats(a.counters.multi, a.counters.reverse)
  {
    DuelOverall(
      a.counters.games,
      Ratio(a.counters.wins as real, a.counters.games),
      Ratio(a.counters.rounds as real, a.counters.games),
      Ratio(a.totals.score as real, a.counters.rounds),
      a.totals.fiveKs,
      Ratio(a.totals.time, a.totals.timeRounds),
      MerchantStats(a.counters.multi, a.counters.reverse))
  }

  /** One finalised country (lines 393-402): each average times the
      bucket's rounds gives back the sum it averages (distances in
      kilometres), the 5k and win rates are counts over rounds in [0, 1],
      and the hit rate is hits over geocoded guesses. */
  function FinishDuelCountry(c: DuelCountry, hits: HitTally): (s: DuelCountryStats)
    requires DuelCountryOk(c)
    ensures s.rounds == c.rounds
    ensures Averages(s.avgScore, c.rounds, SumInts(c.scores) as real)
    ensures Averages(s.avgDistanceKm * 1000.0, c.rounds, SumReals(c.distances))
    ensures Averages(s.avgScoreDiff, c.rounds, SumInts(c.scoreDiffs) as real)
    ensures Averages(s.fiveKRate, c.rounds, c.fiveKs as real) && 0.0 <= s.fiveKRate <= 1.0
    ensures Averages(s.winRate, c.rounds, c.wins as real) && 0.0 <= s.winRate <= 1.0
    ensures hits.total > 0 ==> Averages(s.hitRate, hits.total, hits.correct as real)
    ensures hits.total == 0 ==> s.hitRate == 0.0
    ensures hits.correct <= hits.total ==> 0.0 <= s.hitRate <= 1.0
    ensures c.rounds == 0 ==> s.avgScore == 0.0 && s.avgScoreDiff == 0.0 && s.avgDistanceKm == 0.0
  {
    KmMean(c.distances);
    DuelCountryStats(
      c.rounds,
      MeanInts(c.scores),
      Km(MeanReals(c.distances)),
      CountRate(c.fiveKs, c.rounds),
      MeanInts(c.scoreDiffs),
      Ratio(hits.correct as real, hits.total),
      CountRate(c.wins, c.rounds))
  }

  function DuelRows(keys: seq<string>, table: map<string, DuelCountry>, hits: map<string, HitTally>)
    : (r: seq<DuelRow>)
    requires forall i | 0 <= i < |keys| :: keys[i] in table && DuelCountryOk(table[keys[i]])
    ensures |r| == |keys|
    ensures forall i | 0 <= i < |r| ::
      r[i].0 == keys[i] && r[i].1 == FinishDuelCountry(table[keys[i]], TallyOf(hits, keys[i]))
  {
    if |keys| == 0 then []
    else
      var k := keys[|keys| - 1];
      DuelRows(keys[..|keys| - 1], table, hits) + [(k, FinishDuelCountry(table[k], TallyOf(hits, k)))]
  }

  function DuelScoreDiffKey(row: DuelRow): real {
    row.1.avgScoreDiff
  }

  predicate DuelEligible(row: DuelRow) {
    row.1.rounds >= 20
  }

  function DuelReportOf(a: DuelAcc, geo: Geocoder): (r: DuelReport)
    requires DuelAccOk(a)
    ensures r.overall == DuelOverallOf(a)
    ensures multiset(r.countries) == multiset(DuelRows(a.countries.keys, a.countries.table, Resolve(a.queue, geo)))
    ensures NonIncreasing(r.countries, DuelScoreDiffKey)
    ensures r.top10 == Top(Filter(r.countries, DuelEligible), 10)
    ensures r.bottom10 == Bottom(Filter(r.countries, DuelEligible), 10)
  {
    var rows := DuelRows(a.countries.keys, a.countries.table, Resolve(a.queue, geo));
    var ranked := SortDesc(rows, DuelScoreDiffKey);
    var eligible := Filter(ranked, DuelEligible);
    DuelReport(DuelOverallOf(a), ranked, Top(eligible, 10), Bottom(eligible, 10))
  }

  /** `process_duels(games, mapsize)` with the reverse geocoder as `geo`. */
  function ProcessDuels(games: seq<DuelGame>, mapsize: real, geo: Geocoder): (r: DuelReport)
    ensures r.overall.totalGames == |games|
    ensures r.overall.total5ks <= RoundsListed(games)
    ensures r.overall.total5ks == TotalFiveKs(games, mapsize)
    ensures RoundsListed(games) > 0 ==> Averages(r.overall.avgScore, RoundsListed(games), TotalScore(games, mapsize) as real)
    ensures RoundsListed(games) == 0 ==> r.overall.avgScore == 0.0
  {
    FoldDuelsSums(games, mapsize, "");
    DuelReportOf(FoldDuels(games, mapsize), geo)
  }

  // ---------------------------------------------------------------------
  // Properties

  lemma {:induction false} DuelMerchantsBounded(gs: seq<DuelGame>)
    ensures CountWhere(gs, MultiMerchantDuel) + CountWhere(gs, ReverseMerchantDuel) <= |gs|
  {
    if |gs| > 0 {
      var g := gs[|gs| - 1];
      DuelMerchantsBounded(gs[..|gs| - 1]);
      MerchantsExclusive(HealthChange(g.roundStats), DuelScoreDiff(g));
    }
  }

  /** The overall block: counts over all games, rates in [0, 1], the 5k
      share of all rounds in [0, 1]. */
  lemma DuelOverallFacts(games: seq<DuelGame>, mapsize: real, geo: Geocoder)
    ensures var o := ProcessDuels(games, mapsize, geo).overall;
      && o.totalGames == |games|
      && o.winPercentage == Ratio(CountWhere(games, WonDuel) as real, |games|)
      && 0.0 <= o.winPercentage <= 1.0
      && o.avgRoundsPerGame == Ratio(RoundsListed(games) as real, |games|)
      && o.merchants == MerchantStats(CountWhere(games, MultiMerchantDuel), CountWhere(games, ReverseMerchantDuel))
      && o.merchants.multiMerchant + o.merchants.reverseMerchant <= o.totalGames
      && o.total5ks <= RoundsListed(games)
      && o.total5ks == TotalFiveKs(games, mapsize)
      && (RoundsListed(games) > 0 ==> Averages(o.avgScore, RoundsListed(games), TotalScore(games, mapsize) as real))
      && (RoundsListed(games) == 0 ==> o.avgScore == 0.0)
      && (TotalTimedRounds(games, mapsize) > 0 ==> Averages(o.avgGuessTime, TotalTimedRounds(games, mapsize), TotalTime(games, mapsize)))
      && (TotalTimedRounds(games, mapsize) == 0 ==> o.avgGuessTime == 0.0)
  {
    DuelMerchantsBounded(games);
    FoldDuelsSums(games, mapsize, "");
  }

  /** No games: an all-zero report. */
  lemma DuelEmptyInput(mapsize: real, geo: Geocoder)
    ensures ProcessDuels([], mapsize, geo)
      == DuelReport(DuelOverall(0, 0.0, 0.0, 0.0, 0, 0.0, MerchantStats(0, 0)), [], [], [])
  {
    var a := EmptyDuelAcc();
    assert DuelRows(a.countries.keys, a.countries.table, Resolve(a.queue, geo)) == [];
  }

  /** A bucket's hit tally never covers more guesses than its rounds: a
      round without a guess is not geocoded. */
  lemma DuelHitsAtMostRounds(a: DuelAcc, geo: Geocoder, k: string)
    requires DuelAccOk(a)
    requires k in a.countries.table
    ensures TallyOf(Resolve(a.queue, geo), k) == Expected(a.queue, geo, k)
    ensures TallyOf(Resolve(a.queue, geo), k).total <= a.countries.table[k].rounds
  {
    assert CountCountry(a.queue, k) <= DuelBucketRounds(a.countries, k);
  }

  lemma DuelRowRates(keys: seq<string>, table: map<string, DuelCountry>, q: seq<Queued>, geo: Geocoder, row: DuelRow)
    requires forall i | 0 <= i < |keys| :: keys[i] in table && DuelCountryOk(table[keys[i]])
    requires row in DuelRows(keys, table, Resolve(q, geo))
    ensures row.0 in table && row.1.rounds == table[row.0].rounds
    ensures 0.0 <= row.1.hitRate <= 1.0 && 0.0 <= row.1.winRate <= 1.0 && 0.0 <= row.1.fiveKRate <= 1.0
  {
    var rows := DuelRows(keys, table, Resolve(q, geo));
    var j :| 0 <= j < |rows| && rows[j] == row;
    assert TallyOf(Resolve(q, geo), keys[j]) == Expected(q, geo, keys[j]);
  }


  /** Every reported country is a bucket, with its rates in [0, 1]. */
  lemma DuelCountryRates(games: seq<DuelGame>, mapsize: real, geo: Geocoder, i: int)
    requires 0 <= i < |ProcessDuels(games, mapsize, geo).countries|
    ensures var row := ProcessDuels(games, mapsize, geo).countries[i];
      && row.0 in FoldDuels(games, mapsize).countries.table
      && row.1.rounds == FoldDuels(games, mapsize).countries.table[row.0].rounds
      && 0.0 <= row.1.hitRate <= 1.0
      && 0.0 <= row.1.winRate <= 1.0
      && 0.0 <= row.1.fiveKRate <= 1.0
  {
    var a := FoldDuels(games, mapsize);
    KeysInTable(a.countries);
    var rows := DuelRows(a.countries.keys, a.countries.table, Resolve(a.queue, geo));
    var row := ProcessDuels(games, mapsize, geo).countries[i];
    assert row in multiset(DuelReportOf(a, geo).countries);
    assert row in multiset(rows);
    DuelRowRates(a.countries.keys, a.countries.table, a.queue, geo, row);
  }

  /** Every country row counts exactly the games' rounds whose country
      lower-cases to the row's country. */
  lemma DuelCountryRoundsRow(games: seq<DuelGame>, mapsize: real, geo: Geocoder, i: int)
    requires 0 <= i < |ProcessDuels(games, mapsize, geo).countries|
    ensures var row := ProcessDuels(games, mapsize, geo).countries[i];
      row.1.rounds == DuelCountryRounds(games, mapsize, row.0)
  {
    var row := ProcessDuels(games, mapsize, geo).countries[i];
    DuelCountryRates(games, mapsize, geo, i);
    FoldDuelsSums(games, mapsize, row.0);
  }

  /** Countries ranked by average score difference; both views drawn from
      the countries with 20 or more rounds. */
  lemma DuelRanking(games: seq<DuelGame>, mapsize: real, geo: Geocoder)
    ensures var r := ProcessDuels(games, mapsize, geo);
      && NonIncreasing(r.countries, DuelScoreDiffKey)
      && Subsequence(Filter(r.countries, DuelEligible), r.countries)
      && (forall i | 0 <= i < |r.top10| :: r.top10[i].1.rounds >= 20)
      && (forall i | 0 <= i < |r.bottom10| :: r.bottom10[i].1.rounds >= 20)
  {
    var a := FoldDuels(games, mapsize);
    var r := DuelReportOf(a, geo);
    assert r == ProcessDuels(games, mapsize, geo);
    RankedViews(r.countries, DuelEligible, DuelScoreDiffKey, 10);
  }

  /** A round the player did not guess still lands in the round's own
      country bucket, scored 0, and adds nothing to the geocoding queue. */
  lemma MissedRoundCountsForRoundCountry(a: DuelAcc, g: DuelGame, rn: int, mapsize: real, c: string)
    requires DuelAccOk(a)
    requires FindGuess(g.playerStats.rounds, rn).None?
    requires FindDuelRound(g.roundStats, rn).Some? && FindDuelRound(g.roundStats, rn).value.country == Some(c)
    ensures var r := DuelRoundStep(a, g, rn, mapsize);
      && r.queue == a.queue
      && Lower(c) in r.countries.table
      && r.countries.table[Lower(c)].rounds == DuelBucketRounds(a.countries, Lower(c)) + 1
      && r.totals.score == a.totals.score
  {
  }

  /** A guess without a country of its own takes the round's country: the
      round lands in that bucket and the guess is queued under it. */
  lemma GuessWithoutCountryUsesRoundCountry(a: DuelAcc, g: DuelGame, rn: int, mapsize: real, c: string)
    requires DuelAccOk(a)
    requires FindGuess(g.playerStats.rounds, rn).Some? && FindGuess(g.playerStats.rounds, rn).value.country.None?
    requires FindDuelRound(g.roundStats, rn).Some? && FindDuelRound(g.roundStats, rn).value.country == Some(c)
    ensures var sr := ReadSoloRound(g, rn, mapsize);
      var r := DuelRoundStep(a, g, rn, mapsize);
      && sr.country == Some(c)
      && r.queue == Enqueue(a.queue, sr.side.guess, Lower(c))
      && Lower(c) in r.countries.table
      && r.countries.table[Lower(c)].rounds == DuelBucketRounds(a.countries, Lower(c)) + 1
  {
  }
}
