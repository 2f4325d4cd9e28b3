/** The older team aggregation in the repository root (process_stats.py,
    lines 8-166): the same per-round pair logic as the current one, without
    guess times, merchant counts, score differences or hit rates, and with
    countries ranked by average team score.

    It raises only where a game has fewer than two players or an empty
    `roundStats`; it never reads `roundStats[rn - 1]` and never geocodes.
    On every input the current aggregation accepts, it produces the same
    shared columns (`SharedColumnsAgree`). */
module LegacyTeamDuels {
  import opened Common
  import opened Records
  import opened PairRounds
  import opened Ordered
  import opened Ranking
  import TeamDuels
  import HitRate

  datatype LegacyFault =
    | TooFewPlayers(gameId: string)   // players[1]
    | NoRoundStats(gameId: string)    // roundStats[-1]

  datatype LegacyCounters = LegacyCounters(games: nat, wins: nat, rounds: int)

  datatype LegacyAcc = LegacyAcc(counters: LegacyCounters, players: PlayerTotals, countries: Dict<string, PairCountry>)

  ghost predicate LegacyOk(a: LegacyAcc) {
    && TotalsOk(a.players)
    && a.countries.Valid()
    && forall k | k in a.countries.table :: PairCountryOk(a.countries.table[k])
  }

  function LegacyEmpty(): (a: LegacyAcc)
    ensures LegacyOk(a) && a.counters == LegacyCounters(0, 0, 0) && a.countries.keys == []
  {
    LegacyAcc(LegacyCounters(0, 0, 0), NoTotals(), Empty())
  }

  /** Bucket `k`, or the fresh bucket `defaultdict` would create. */
  function LegacyBucketOf(d: Dict<string, PairCountry>, k: string): PairCountry {
    if k in d.table then d.table[k] else NewPairCountry()
  }

  /** Rounds recorded in bucket `k` (0 when it does not exist). */
  function LegacyBucketRounds(d: Dict<string, PairCountry>, k: string): nat {
    if k in d.table then d.table[k].rounds else 0
  }

  /** The country branch (lines 94-110): bucket `k` gains the round, the
      players' 5k totals count it, and nothing else changes. */
  function LegacyCountryStep(a: LegacyAcc, k: string, p1: string, p2: string, pr: PairRound): (r: LegacyAcc)
    requires LegacyOk(a)
    ensures LegacyOk(r)
    ensures r.counters == a.counters
    ensures r.players == a.players.(fiveKs := CountFiveKs(a.players.fiveKs, p1, p2, pr))
    ensures r.countries == Put(a.countries, k, AddCountryRound(LegacyBucketOf(a.countries, k), p1, p2, pr))
  {
    a.(players := a.players.(fiveKs := CountFiveKs(a.players.fiveKs, p1, p2, pr)),
       countries := Put(a.countries, k, AddCountryRound(LegacyBucketOf(a.countries, k), p1, p2, pr)))
  }

  /** The country step touches bucket `k` only: it gains one round, a new
      `k` is listed last, and every other bucket stays as it was. */
  lemma LegacyCountryStepBuckets(a: LegacyAcc, k: string, p1: string, p2: string, pr: PairRound, j: string)
    requires LegacyOk(a)
    ensures var r := LegacyCountryStep(a, k, p1, p2, pr);
      && LegacyBucketOf(r.countries, j) == (if j == k then AddCountryRound(LegacyBucketOf(a.countries, k), p1, p2, pr)
                                            else LegacyBucketOf(a.countries, j))
      && LegacyBucketRounds(r.countries, j) == LegacyBucketRounds(a.countries, j) + (if j == k then 1 else 0)
      && r.countries.keys == (if k in a.countries.table then a.countries.keys else a.countries.keys + [k])
  {
  }

  /** One round (lines 55-110): both players are credited as in the
      current aggregation; only a round with a country counts 5ks. */
  function LegacyRoundStep(a: LegacyAcc, p1: PlayerStats, p2: PlayerStats, rn: int, mapsize: real): (r: LegacyAcc)
    requires LegacyOk(a)
    ensures LegacyOk(r) && r.counters == a.counters
    ensures var pr := ReadRound(p1.rounds, p2.rounds, rn, mapsize);
      var credited := CreditRound(a.players, p1.playerId, p2.playerId, pr);
      && r.players.(fiveKs := credited.fiveKs) == credited
      && r.players.fiveKs == (if pr.country.Some? then CountFiveKs(a.players.fiveKs, p1.playerId, p2.playerId, pr)
                              else a.players.fiveKs)
  {
    var pr := ReadRound(p1.rounds, p2.rounds, rn, mapsize);
    var a1 := a.(players := CreditRound(a.players, p1.playerId, p2.playerId, pr));
    match pr.country
    case None => a1
    case Some(country) => LegacyCountryStep(a1, Lower(country), p1.playerId, p2.playerId, pr)
  }

  /** A round without a country leaves the buckets alone; a round with one
      adds one round to the bucket of its lower-cased country and leaves
      every other bucket as it was. Unlike the current aggregation, it never
      needs the picked guess or `roundStats[rn - 1]`. */
  lemma LegacyRoundBuckets(a: LegacyAcc, p1: PlayerStats, p2: PlayerStats, rn: int, mapsize: real, j: string)
    requires LegacyOk(a)
    ensures var r := LegacyRoundStep(a, p1, p2, rn, mapsize);
      && LegacyBucketRounds(r.countries, j)
         == LegacyBucketRounds(a.countries, j) + (if LandsIn(p1.rounds, p2.rounds, rn, j) then 1 else 0)
      && (!LandsIn(p1.rounds, p2.rounds, rn, j) ==> LegacyBucketOf(r.countries, j) == LegacyBucketOf(a.countries, j))
      && (ReadRound(p1.rounds, p2.rounds, rn, mapsize).country.None? ==> r.countries == a.countries)
  {
    var pr := ReadRound(p1.rounds, p2.rounds, rn, mapsize);
    var a1 := a.(players := CreditRound(a.players, p1.playerId, p2.playerId, pr));
    if pr.country.Some? {
      var k := Lower(pr.country.value);
      assert LegacyRoundStep(a, p1, p2, rn, mapsize) == LegacyCountryStep(a1, k, p1.playerId, p2.playerId, pr);
      LegacyCountryStepBuckets(a1, k, p1.playerId, p2.playerId, pr, j);
      assert LandsIn(p1.rounds, p2.rounds, rn, j) <==> j == k;
    } else {
      assert !LandsIn(p1.rounds, p2.rounds, rn, j);
    }
  }

  /** The bucket a round lands in records the round for both players. */
  lemma LegacyRoundBucket(a: LegacyAcc, p1: PlayerStats, p2: PlayerStats, rn: int, mapsize: real, j: string)
    requires LegacyOk(a)
    requires LandsIn(p1.rounds, p2.rounds, rn, j)
    ensures LegacyBucketOf(LegacyRoundStep(a, p1, p2, rn, mapsize).countries, j)
         == AddCountryRound(LegacyBucketOf(a.countries, j), p1.playerId, p2.playerId, ReadRound(p1.rounds, p2.rounds, rn, mapsize))
  {
    var pr := ReadRound(p1.rounds, p2.rounds, rn, mapsize);
    var a1 := a.(players := CreditRound(a.players, p1.playerId, p2.playerId, pr));
    assert LegacyRoundStep(a, p1, p2, rn, mapsize) == LegacyCountryStep(a1, j, p1.playerId, p2.playerId, pr);
    LegacyCountryStepBuckets(a1, j, p1.playerId, p2.playerId, pr, j);
  }

  function LegacyRoundsUpTo(a: LegacyAcc, p1: PlayerStats, p2: PlayerStats, n: int, mapsize: real): (r: LegacyAcc)
    requires LegacyOk(a)
    ensures LegacyOk(r) && r.counters == a.counters
    decreases if n > 0 then n else 0
  {
    if n <= 0 then a
    else LegacyRoundStep(LegacyRoundsUpTo(a, p1, p2, n - 1, mapsize), p1, p2, n, mapsize)
  }

  /** After rounds `1..n`, bucket `k` holds as many more rounds as there are
      rounds among `1..n` whose country lower-cases to `k`. */
  lemma {:induction false} LegacyRoundsUpToBuckets(a: LegacyAcc, p1: PlayerStats, p2: PlayerStats, n: int,
                                                   mapsize: real, k: string)
    requires LegacyOk(a)
    ensures LegacyBucketRounds(LegacyRoundsUpTo(a, p1, p2, n, mapsize).countries, k)
         == LegacyBucketRounds(a.countries, k) + BucketCount(p1.rounds, p2.rounds, n, k)
    decreases if n > 0 then n else 0
  {
    if n > 0 {
      LegacyRoundsUpToBuckets(a, p1, p2, n - 1, mapsize, k);
      LegacyRoundBuckets(LegacyRoundsUpTo(a, p1, p2, n - 1, mapsize), p1, p2, n, mapsize, k);
    }
  }

  /** One game (lines 33-110). */
  function LegacyGameStep(a: LegacyAcc, g: TeamGame, mapsize: real): (r: Result<LegacyAcc, LegacyFault>)
    requires LegacyOk(a)
    ensures r.Ok? <==> Shaped(g)
    ensures r.Ok? ==> LegacyOk(r.value)
    ensures r.Ok? ==> r.value.counters == LegacyCounters(a.counters.games + 1,
      a.counters.wins + (if WonGame(g) then 1 else 0), a.counters.rounds + LastRound(g))
  {
    if |g.playerStats| < 2 then Err(TooFewPlayers(g.gameId))
    else if |g.roundStats| == 0 then Err(NoRoundStats(g.gameId))
    else
      Ok(LegacyRoundsUpTo(Counted(a, g), g.playerStats[0], g.playerStats[1], LastRound(g), mapsize))
  }

  /** Every game has the shape the loop indexes, checked in input order. */
  predicate AllShaped(gs: seq<TeamGame>) {
    |gs| == 0 || (AllShaped(gs[..|gs| - 1]) && Shaped(gs[|gs| - 1]))
  }

  lemma {:induction false} AllShapedIff(gs: seq<TeamGame>)
    ensures AllShaped(gs) <==> forall i | 0 <= i < |gs| :: Shaped(gs[i])
    decreases |gs|
  {
    if |gs| > 0 {
      var init := gs[..|gs| - 1];
      AllShapedIff(init);
      assert forall i | 0 <= i < |init| :: init[i] == gs[i];
    }
  }

  /** The game loop (lines 33-110); it fails exactly when some game is
      misshapen. */
  function LegacyFold(gs: seq<TeamGame>, mapsize: real): (r: Result<LegacyAcc, LegacyFault>)
    ensures r.Ok? <==> AllShaped(gs)
    ensures r.Ok? ==> LegacyOk(r.value)
    ensures r.Ok? ==> r.value.counters == LegacyCounters(|gs|, CountWhere(gs, WonGame), RoundsPlayed(gs))
  {
    if |gs| == 0 then Ok(LegacyEmpty())
    else
      match LegacyFold(gs[..|gs| - 1], mapsize)
      case Err(e) => Err(e)
      case Ok(a) =>
        CountsStep(gs);
        LegacyGameStep(a, gs[|gs| - 1], mapsize)
  }

  /** The counters a game adds to the accumulator before its rounds run. */
  function Counted(a: LegacyAcc, g: TeamGame): (r: LegacyAcc)
    requires LegacyOk(a)
    ensures LegacyOk(r) && r.players == a.players && r.countries == a.countries
  {
    a.(counters := LegacyCounters(a.counters.games + 1, a.counters.wins + (if WonGame(g) then 1 else 0),
                                  a.counters.rounds + LastRound(g)))
  }

  /** A successful loop over a non-empty list is the successful loop over
      its prefix followed by the last game's rounds. */
  lemma LegacyFoldStep(gs: seq<TeamGame>, mapsize: real)
    requires |gs| > 0 && LegacyFold(gs, mapsize).Ok?
    ensures var g := gs[|gs| - 1];
      && LegacyFold(gs[..|gs| - 1], mapsize).Ok? && Shaped(g)
      && LegacyFold(gs, mapsize).value
         == LegacyRoundsUpTo(Counted(LegacyFold(gs[..|gs| - 1], mapsize).value, g),
                             g.playerStats[0], g.playerStats[1], LastRound(g), mapsize)
  {
  }

  /** Bucket `k` of the finished loop holds exactly the games' rounds whose
      country lower-cases to `k`, the same count as in the current
      aggregation. */
  lemma {:induction false} LegacyFoldBuckets(gs: seq<TeamGame>, mapsize: real, k: string)
    requires LegacyFold(gs, mapsize).Ok?
    ensures LegacyBucketRounds(LegacyFold(gs, mapsize).value.countries, k) == TeamDuels.CountryRounds(gs, k)
  {
    if |gs| > 0 {
      var init := gs[..|gs| - 1];
      var g := gs[|gs| - 1];
      LegacyFoldStep(gs, mapsize);
      LegacyFoldBuckets(init, mapsize, k);
      var a0 := Counted(LegacyFold(init, mapsize).value, g);
      LegacyRoundsUpToBuckets(a0, g.playerStats[0], g.playerStats[1], LastRound(g), mapsize, k);
    }
  }

  /** The game, win and round counts of a list grow by its last game's. */
  lemma CountsStep(gs: seq<TeamGame>)
    requires |gs| > 0
    ensures var g := gs[|gs| - 1];
      && CountWhere(gs, WonGame) == CountWhere(gs[..|gs| - 1], WonGame) + (if WonGame(g) then 1 else 0)
      && RoundsPlayed(gs) == RoundsPlayed(gs[..|gs| - 1]) + LastRound(g)
  {
  }

  // ---------------------------------------------------------------------
  // The report (lines 112-166)

  datatype LegacyOverall = LegacyOverall(
    totalGames: nat,
    winPercentage: real,
    avgRoundsPerGame: real,
    contributionPercent: map<string, real>,
    avgIndividualScore: map<string, real>,
    playerTotal5ks: map<string, nat>)

  type LegacyRow = (string, PairCountryStats)

  datatype LegacyReport = LegacyReport(
    overall: LegacyOverall,
    countries: seq<LegacyRow>,
    top10: seq<LegacyRow>,
    bottom10: seq<LegacyRow>)

  /** The overall block (lines 115-128): each rate times its denominator
      gives back what it counts, and is 0 where the denominator is 0. */
  function LegacyOverallOf(a: LegacyAcc): (o: LegacyOverall)
    requires LegacyOk(a)
    ensures o.totalGames == a.counters.games
    ensures a.counters.games > 0 ==> && Averages(o.winPercentage, a.counters.games, a.counters.wins as real)
                                     && Averages(o.avgRoundsPerGame, a.counters.games, a.counters.rounds as real)
    ensures a.counters.games == 0 ==> o.winPercentage == 0.0 && o.avgRoundsPerGame == 0.0
    ensures o.contributionPercent.Keys == a.players.contrib.Keys
    ensures forall p | p in o.contributionPercent :: 0.0 < o.contributionPercent[p] <= 1.0
    ensures o.avgIndividualScore.Keys == a.players.scores.Keys
    ensures o.playerTotal5ks == a.players.fiveKs
  {
    var t := a.players;
    LegacyOverall(
      a.counters.games,
      Ratio(a.counters.wins as real, a.counters.games),
      Ratio(a.counters.rounds as real, a.counters.games),
      Shares(t.contrib, t.rounds),
      PerKey(map p | p in t.scores :: t.scores[p] as real, t.rounds),
      t.fiveKs)
  }

  /** Player `p`'s entries in the overall block: its contribution share and
      average score, times its rounds, give back its credited rounds and its
      score total; a player without rounds averages 0. */
  lemma LegacyOverallPlayer(a: LegacyAcc, p: string)
    requires LegacyOk(a)
    ensures var o := LegacyOverallOf(a);
      && (p in a.players.contrib ==>
            Averages(o.contributionPercent[p], a.players.rounds[p], a.players.contrib[p] as real))
      && (p in a.players.scores && GetNat(a.players.rounds, p) > 0 ==>
            Averages(o.avgIndividualScore[p], a.players.rounds[p], a.players.scores[p] as real))
      && (p in a.players.scores && GetNat(a.players.rounds, p) == 0 ==> o.avgIndividualScore[p] == 0.0)
  {
  }

  function LegacyRows(keys: seq<string>, table: map<string, PairCountry>): (r: seq<LegacyRow>)
    requires forall i | 0 <= i < |keys| :: keys[i] in table && PairCountryOk(table[keys[i]])
    ensures |r| == |keys|
    ensures forall i | 0 <= i < |r| :: r[i] == (keys[i], FinishPairCountry(table[keys[i]]))
  {
    if |keys| == 0 then []
    else
      var k := keys[|keys| - 1];
      LegacyRows(keys[..|keys| - 1], table) + [(k, FinishPairCountry(table[k]))]
  }

  function TeamScoreKey(row: LegacyRow): real {
    row.1.avgTeamScore
  }

  predicate LegacyEligible(row: LegacyRow) {
    row.1.rounds >= 20
  }

  function LegacyReportOf(a: LegacyAcc): (r: LegacyReport)
    requires LegacyOk(a)
    ensures r.overall == LegacyOverallOf(a)
    ensures multiset(r.countries) == multiset(LegacyRows(a.countries.keys, a.countries.table))
    ensures NonIncreasing(r.countries, TeamScoreKey)
    ensures r.top10 == Top(Filter(r.countries, LegacyEligible), 10)
    ensures r.bottom10 == Bottom(Filter(r.countries, LegacyEligible), 10)
  {
    var ranked := SortDesc(LegacyRows(a.countries.keys, a.countries.table), TeamScoreKey);
    var eligible := Filter(ranked, LegacyEligible);
    LegacyReport(LegacyOverallOf(a), ranked, Top(eligible, 10), Bottom(eligible, 10))
  }

  /** The root `process_games(games, mapsize)`. */
  function LegacyProcess(games: seq<TeamGame>, mapsize: real): (r: Result<LegacyReport, LegacyFault>)
    ensures r.Ok? <==> forall i | 0 <= i < |games| :: Shaped(games[i])
  {
    AllShapedIff(games);
    match LegacyFold(games, mapsize)
    case Err(e) => Err(e)
    case Ok(a) => Ok(LegacyReportOf(a))
  }

  // ---------------------------------------------------------------------
  // Properties

  /** The overall block of a successful run. */
  lemma LegacyOverallFacts(games: seq<TeamGame>, mapsize: real)
    requires LegacyProcess(games, mapsize).Ok?
    ensures var o := LegacyProcess(games, mapsize).value.overall;
      && o.totalGames == |games|
      && o.winPercentage == Ratio(CountWhere(games, WonGame) as real, |games|)
      && 0.0 <= o.winPercentage <= 1.0
      && o.avgRoundsPerGame == Ratio(RoundsPlayed(games) as real, |games|)
      && forall p | p in o.contributionPercent :: 0.0 < o.contributionPercent[p] <= 1.0
  {
  }

  /** Every country row of a successful run counts exactly the games' rounds
      whose country lower-cases to the row's country. */
  lemma LegacyCountryRounds(games: seq<TeamGame>, mapsize: real, i: int)
    requires LegacyProcess(games, mapsize).Ok?
    requires 0 <= i < |LegacyProcess(games, mapsize).value.countries|
    ensures var row := LegacyProcess(games, mapsize).value.countries[i];
      row.1.rounds == TeamDuels.CountryRounds(games, row.0)
  {
    var a := LegacyFold(games, mapsize).value;
    KeysInTable(a.countries);
    var rows := LegacyRows(a.countries.keys, a.countries.table);
    var row := LegacyProcess(games, mapsize).value.countries[i];
    assert row in multiset(LegacyReportOf(a).countries);
    assert row in multiset(rows);
    var j :| 0 <= j < |rows| && rows[j] == row;
    LegacyFoldBuckets(games, mapsize, row.0);
  }

  /** Countries ranked by average team score; both views drawn from the
      countries with 20 or more rounds. */
  lemma LegacyRanking(a: LegacyAcc)
    requires LegacyOk(a)
    ensures var r := LegacyReportOf(a);
      && NonIncreasing(r.countries, TeamScoreKey)
      && Subsequence(Filter(r.countries, LegacyEligible), r.countries)
      && (forall i | 0 <= i < |r.top10| :: r.top10[i].1.rounds >= 20)
      && (forall i | 0 <= i < |r.bottom10| :: r.bottom10[i].1.rounds >= 20)
  {
    var r := LegacyReportOf(a);
    RankedViews(r.countries, LegacyEligible, TeamScoreKey, 10);
  }

  // ---------------------------------------------------------------------
  // Agreement with the current aggregation

  /** The legacy state is the current state with the extra columns dropped. */
  ghost predicate Agree(t: TeamDuels.TeamAcc, l: LegacyAcc) {
    && l.counters == LegacyCounters(t.counters.games, t.counters.wins, t.counters.rounds)
    && l.players == t.players
    && CountriesAgree(t.countries, l.countries)
  }

  /** The same buckets in the same order, the legacy ones holding the
      current ones' shared part. */
  ghost predicate CountriesAgree(td: Dict<string, TeamDuels.TeamCountry>, ld: Dict<string, PairCountry>) {
    && ld.keys == td.keys
    && ld.table.Keys == td.table.Keys
    && forall k | k in ld.table :: ld.table[k] == td.table[k].core
  }

  lemma PutAgrees(td: Dict<string, TeamDuels.TeamCountry>, ld: Dict<string, PairCountry>, k: string,
                  c: TeamDuels.TeamCountry, lc: PairCountry)
    requires CountriesAgree(td, ld) && lc == c.core
    ensures CountriesAgree(Put(td, k, c), Put(ld, k, lc))
  {
  }

  lemma RoundAgrees(t: TeamDuels.TeamAcc, l: LegacyAcc, gameId: string, stats: seq<RoundStat>,
                    p1: PlayerStats, p2: PlayerStats, rn: int, mapsize: real)
    requires TeamDuels.AccOk(t) && LegacyOk(l) && Agree(t, l) && rn >= 1
    requires TeamDuels.RoundStep(t, gameId, stats, p1, p2, rn, mapsize).Ok?
    ensures Agree(TeamDuels.RoundStep(t, gameId, stats, p1, p2, rn, mapsize).value, LegacyRoundStep(l, p1, p2, rn, mapsize))
  {
    var pr := ReadRound(p1.rounds, p2.rounds, rn, mapsize);
    var t1 := TeamDuels.Credited(t, p1.playerId, p2.playerId, pr);
    var l1 := l.(players := CreditRound(l.players, p1.playerId, p2.playerId, pr));
    var r := TeamDuels.RoundStep(t, gameId, stats, p1, p2, rn, mapsize).value;
    if pr.country.None? {
      assert r == t1;
      assert LegacyRoundStep(l, p1, p2, rn, mapsize) == l1;
    } else {
      var k := Lower(pr.country.value);
      TeamDuels.RoundStepCountry(t, gameId, stats, p1, p2, rn, mapsize, pr, r);
      assert LegacyRoundStep(l, p1, p2, rn, mapsize) == LegacyCountryStep(l1, k, p1.playerId, p2.playerId, pr);
      CountryStepAgrees(t1, l1, k, Picked(pr).value, p1.playerId, p2.playerId, pr, stats[rn - 1].enemyBestScore);
    }
  }

  lemma CountryStepAgrees(t: TeamDuels.TeamAcc, l: LegacyAcc, k: string, pick: Guess, p1: string, p2: string,
                          pr: PairRound, eb: int)
    requires TeamDuels.AccOk(t) && LegacyOk(l) && Agree(t, l)
    ensures Agree(TeamDuels.CountryStep(t, k, pick, p1, p2, pr, eb), LegacyCountryStep(l, k, p1, p2, pr))
  {
    BucketAgrees(t.countries, l.countries, k, p1, p2, pr, eb);
  }

  /** Growing bucket `k` in both dictionaries keeps them in agreement. */
  lemma BucketAgrees(td: Dict<string, TeamDuels.TeamCountry>, ld: Dict<string, PairCountry>, k: string,
                     p1: string, p2: string, pr: PairRound, eb: int)
    requires CountriesAgree(td, ld)
    requires forall k | k in td.table :: TeamDuels.TeamCountryOk(td.table[k])
    ensures var c := if k in td.table then td.table[k] else TeamDuels.NewTeamCountry();
      var lc := if k in ld.table then ld.table[k] else NewPairCountry();
      CountriesAgree(Put(td, k, TeamDuels.AddTeamRound(c, p1, p2, pr, eb)), Put(ld, k, AddCountryRound(lc, p1, p2, pr)))
  {
    var c := if k in td.table then td.table[k] else TeamDuels.NewTeamCountry();
    var lc := if k in ld.table then ld.table[k] else NewPairCountry();
    assert lc == c.core;
    PutAgrees(td, ld, k, TeamDuels.AddTeamRound(c, p1, p2, pr, eb), AddCountryRound(lc, p1, p2, pr));
  }


  lemma {:induction false} RoundsAgree(t: TeamDuels.TeamAcc, l: LegacyAcc, gameId: string, stats: seq<RoundStat>,
                                       p1: PlayerStats, p2: PlayerStats, n: int, mapsize: real)
    requires TeamDuels.AccOk(t) && LegacyOk(l) && Agree(t, l)
    requires TeamDuels.RoundsUpTo(t, gameId, stats, p1, p2, n, mapsize).Ok?
    ensures Agree(TeamDuels.RoundsUpTo(t, gameId, stats, p1, p2, n, mapsize).value, LegacyRoundsUpTo(l, p1, p2, n, mapsize))
    decreases if n > 0 then n else 0
  {
    if n > 0 {
      RoundsAgree(t, l, gameId, stats, p1, p2, n - 1, mapsize);
      var t' := TeamDuels.RoundsUpTo(t, gameId, stats, p1, p2, n - 1, mapsize).value;
      RoundAgrees(t', LegacyRoundsUpTo(l, p1, p2, n - 1, mapsize), gameId, stats, p1, p2, n, mapsize);
    }
  }

  /** Wherever the current aggregation's game loop succeeds, the legacy one
      does too, on the same player totals and the same country buckets. */
  lemma {:induction false} FoldsAgree(gs: seq<TeamGame>, mapsize: real)
    requires TeamDuels.FoldGames(gs, mapsize).Ok?
    ensures LegacyFold(gs, mapsize).Ok?
    ensures Agree(TeamDuels.FoldGames(gs, mapsize).value, LegacyFold(gs, mapsize).value)
  {
    if |gs| > 0 {
      var init := gs[..|gs| - 1];
      var g := gs[|gs| - 1];
      FoldsAgree(init, mapsize);
      var t := TeamDuels.FoldGames(init, mapsize).value;
      var l := LegacyFold(init, mapsize).value;
      var t1 := t.(counters := TeamDuels.CountGame(t.counters, g));
      var l1 := l.(counters := LegacyCounters(l.counters.games + 1, l.counters.wins + (if WonGame(g) then 1 else 0),
                                              l.counters.rounds + LastRound(g)));
      RoundsAgree(t1, l1, g.gameId, g.roundStats, g.playerStats[0], g.playerStats[1], LastRound(g), mapsize);
    }
  }

  /** The overall columns both aggregations report coincide on every input
      the current one accepts: game count, win percentage, average rounds,
      contribution shares, individual averages and 5k totals. */
  lemma SharedColumnsAgree(games: seq<TeamGame>, mapsize: real, geo: HitRate.Geocoder)
    requires TeamDuels.ProcessGames(games, mapsize, geo).Ok?
    ensures LegacyProcess(games, mapsize).Ok?
    ensures var o := TeamDuels.ProcessGames(games, mapsize, geo).value.overall;
      var lo := LegacyProcess(games, mapsize).value.overall;
      && lo.totalGames == o.totalGames
      && lo.winPercentage == o.winPercentage
      && lo.avgRoundsPerGame == o.avgRoundsPerGame
      && lo.contributionPercent == o.contributionPercent
      && lo.avgIndividualScore == o.avgIndividualScore
      && lo.playerTotal5ks == o.playerTotal5ks
  {
    FoldsAgree(games, mapsize);
    var t := TeamDuels.FoldGames(games, mapsize).value;
    var l := LegacyFold(games, mapsize).value;
    OverallAgrees(t, l);
  }

  lemma OverallAgrees(t: TeamDuels.TeamAcc, l: LegacyAcc)
    requires TeamDuels.AccOk(t) && LegacyOk(l) && Agree(t, l)
    ensures var o := TeamDuels.Overall(t);
      var lo := LegacyOverallOf(l);
      && lo.totalGames == o.totalGames
      && lo.winPercentage == o.winPercentage
      && lo.avgRoundsPerGame == o.avgRoundsPerGame
      && lo.contributionPercent == o.contributionPercent
      && lo.avgIndividualScore == o.avgIndividualScore
      && lo.playerTotal5ks == o.playerTotal5ks
  {
  }

  /** Every country's shared columns coincide too, bucket by bucket in
      creation order. */
  lemma CountryColumnsAgree(games: seq<TeamGame>, mapsize: real, geo: HitRate.Geocoder)
    requires TeamDuels.FoldGames(games, mapsize).Ok?
    ensures LegacyFold(games, mapsize).Ok?
    ensures var t := TeamDuels.FoldGames(games, mapsize).value;
      var l := LegacyFold(games, mapsize).value;
      LegacyRows(l.countries.keys, l.countries.table)
        == BaseRows(TeamDuels.Rows(t.countries.keys, t.countries.table, HitRate.Resolve(t.queue, geo)))
  {
    FoldsAgree(games, mapsize);
    var t := TeamDuels.FoldGames(games, mapsize).value;
    DictRowsAgree(t.countries, LegacyFold(games, mapsize).value.countries, HitRate.Resolve(t.queue, geo));
  }

  /** `RowsAgree` for agreeing dictionaries, which hold the same keys. */
  lemma DictRowsAgree(td: Dict<string, TeamDuels.TeamCountry>, ld: Dict<string, PairCountry>,
                      hits: map<string, HitRate.HitTally>)
    requires td.Valid() && forall k | k in td.table :: TeamDuels.TeamCountryOk(td.table[k])
    requires ld.Valid() && forall k | k in ld.table :: PairCountryOk(ld.table[k])
    requires CountriesAgree(td, ld)
    ensures LegacyRows(ld.keys, ld.table) == BaseRows(TeamDuels.Rows(td.keys, td.table, hits))
  {
    assert forall i | 0 <= i < |ld.keys| :: ld.keys[i] in ld.table;
    RowsAgree(ld.keys, td.table, ld.table, hits);
  }

  lemma RowsAgree(keys: seq<string>, tt: map<string, TeamDuels.TeamCountry>, lt: map<string, PairCountry>,
                  hits: map<string, HitRate.HitTally>)
    requires forall i | 0 <= i < |keys| ::
      keys[i] in tt && keys[i] in lt && TeamDuels.TeamCountryOk(tt[keys[i]])
      && PairCountryOk(lt[keys[i]]) && lt[keys[i]] == tt[keys[i]].core
    ensures LegacyRows(keys, lt) == BaseRows(TeamDuels.Rows(keys, tt, hits))
  {
    var lr := LegacyRows(keys, lt);
    var rows := TeamDuels.Rows(keys, tt, hits);
    var tr := BaseRows(rows);
    forall i | 0 <= i < |lr|
      ensures lr[i] == tr[i]
    {
      assert rows[i].1.base == FinishPairCountry(tt[keys[i]].core);
    }
  }

  /** The current rows with their extra columns dropped. */
  function BaseRows(rows: seq<TeamDuels.CountryRow>): (r: seq<LegacyRow>)
    ensures |r| == |rows|
    ensures forall i | 0 <= i < |r| :: r[i] == (rows[i].0, rows[i].1.base)
  {
    if |rows| == 0 then [] else BaseRows(rows[..|rows| - 1]) + [(rows[|rows| - 1].0, rows[|rows| - 1].1.base)]
  }

  /** The legacy aggregation never reads `roundStats[rn - 1]`: a game whose
      `roundStats` is shorter than its last round number is accepted. */
  lemma LegacyIgnoresEnemyBest(mapsize: real)
    ensures var g := TeamGame("g", "t", TeamStats(0.0, 0, 3, 0, Some(0)),
                              [PlayerStats("a", 0.0, 0, []), PlayerStats("b", 0.0, 0, [])],
                              [RoundStat(3, 0.0, 0, 0, [], 0)]);
      LegacyProcess([g], mapsize).Ok?
  {
  }
}
