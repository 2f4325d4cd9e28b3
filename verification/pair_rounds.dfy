/** The per-round logic both team aggregations share (geoguessr/process_stats.py,
    lines 71-158, and the older process_stats.py, lines 40-110): reading the
    two teammates' guesses for a round, the team's best score and distance,
    who gets contribution credit, and the country bucket's per-player lists.

    Only the first two entries of `playerStats` are read; a game with more
    players is folded with its first two. */
module PairRounds {
  import opened Common
  import opened Records

  /** One teammate's view of a round. */
  datatype Side = Side(guess: Option<Guess>, score: int, distance: real, time: Option<real>)

  /** A missing guess counts as score 0 at the map-size distance, untimed. */
  function SideOf(g: Option<Guess>, mapsize: real): (s: Side)
    ensures s.guess == g
    ensures g.None? ==> s.score == 0 && s.distance == mapsize && s.time.None?
    ensures g.Some? ==> s.score == g.value.score && s.distance == g.value.distance && s.time == g.value.time
  {
    match g
    case None => Side(None, 0, mapsize, None)
    case Some(r) => Side(g, r.score, r.distance, r.time)
  }

  datatype PairRound = PairRound(one: Side, two: Side, country: Option<string>)

  /** The country a round is filed under: the first player's guess's, or,
      when that guess is missing or carries none, the second player's
      guess's (`None` when that is missing too). */
  function RoundCountry(p1: seq<Guess>, p2: seq<Guess>, rn: int): Option<string> {
    var g1 := FindGuess(p1, rn);
    var g2 := FindGuess(p2, rn);
    if g1.Some? && g1.value.country.Some? then g1.value.country
    else if g2.Some? then g2.value.country
    else None
  }

  /** Round `rn` as both players saw it. The country is the first player's,
      or the second player's when the first has none. */
  function ReadRound(p1: seq<Guess>, p2: seq<Guess>, rn: int, mapsize: real): (pr: PairRound)
    ensures pr.one == SideOf(FindGuess(p1, rn), mapsize)
    ensures pr.two == SideOf(FindGuess(p2, rn), mapsize)
    ensures pr.one.guess.Some? && pr.one.guess.value.country.Some? ==> pr.country == pr.one.guess.value.country
    ensures pr.one.guess.None? || pr.one.guess.value.country.None? ==>
              pr.country == (if pr.two.guess.Some? then pr.two.guess.value.country else None)
    ensures pr.country == RoundCountry(p1, p2, rn)
  {
    var one := SideOf(FindGuess(p1, rn), mapsize);
    var two := SideOf(FindGuess(p2, rn), mapsize);
    var c1 := if one.guess.Some? then one.guess.value.country else None;
    var country := if c1.None? && two.guess.Some? then two.guess.value.country else c1;
    PairRound(one, two, country)
  }

  /** The guess a country round sends to the geocoder: the first player's
      when it scored strictly more, otherwise the second player's. */
  function Picked(pr: PairRound): Option<Guess> {
    if pr.one.score > pr.two.score then pr.one.guess else pr.two.guess
  }

  /** Round `rn` is filed under the country key `k`. */
  predicate LandsIn(p1: seq<Guess>, p2: seq<Guess>, rn: int, k: string) {
    var c := RoundCountry(p1, p2, rn);
    c.Some? && Lower(c.value) == k
  }

  /** How many of rounds `1..n` are filed under `k`. */
  function BucketCount(p1: seq<Guess>, p2: seq<Guess>, n: int, k: string): nat
    decreases n
  {
    if n <= 0 then 0
    else BucketCount(p1, p2, n - 1, k) + (if LandsIn(p1, p2, n, k) then 1 else 0)
  }

  /** The team's round score: the better of the two. */
  function TeamScore(pr: PairRound): (s: int)
    ensures s >= pr.one.score && s >= pr.two.score
    ensures s == pr.one.score || s == pr.two.score
  {
    Max(pr.one.score, pr.two.score)
  }

  /** The team's round distance: the closer of the two. */
  function TeamDistance(pr: PairRound): (d: real)
    ensures d <= pr.one.distance && d <= pr.two.distance
    ensures d == pr.one.distance || d == pr.two.distance
  {
    MinReal(pr.one.distance, pr.two.distance)
  }

  /** Per-player running totals: `player_contrib`, `player_rounds`,
      `player_scores`, `player_distances` and `player_total_5ks`. */
  datatype PlayerTotals = PlayerTotals(
    contrib: map<string, nat>,
    rounds: map<string, nat>,
    scores: map<string, int>,
    distances: map<string, real>,
    fiveKs: map<string, nat>)

  function NoTotals(): (t: PlayerTotals)
    ensures TotalsOk(t)
    ensures t.contrib == map[] && t.rounds == map[] && t.scores == map[] && t.distances == map[] && t.fiveKs == map[]
  {
    PlayerTotals(map[], map[], map[], map[], map[])
  }

  /** Scores and distances are kept for exactly the players with rounds; a
      player is only a contribution key once credited, and is never
      credited for more rounds than it played. */
  ghost predicate TotalsOk(t: PlayerTotals) {
    && t.scores.Keys == t.rounds.Keys
    && t.distances.Keys == t.rounds.Keys
    && CreditsOk(t.contrib, t.rounds)
  }

  ghost predicate CreditsOk(contrib: map<string, nat>, rounds: map<string, nat>) {
    forall p | p in contrib :: p in rounds && 1 <= contrib[p] <= rounds[p]
  }

  /** The contribution rule: strictly closer earns the round, a tie earns
      nothing. */
  function Credit(contrib: map<string, nat>, p1: string, p2: string, pr: PairRound): (r: map<string, nat>)
    ensures pr.one.distance < pr.two.distance ==> r == AddNat(contrib, p1, 1)
    ensures pr.two.distance < pr.one.distance ==> r == AddNat(contrib, p2, 1)
    ensures pr.one.distance == pr.two.distance ==> r == contrib
  {
    if pr.one.distance < pr.two.distance then AddNat(contrib, p1, 1)
    else if pr.two.distance < pr.one.distance then AddNat(contrib, p2, 1)
    else contrib
  }

  /** Crediting at most one of the two players of a round that both played
      keeps every player's credit within its rounds. */
  lemma CreditBounded(t: PlayerTotals, p1: string, p2: string, pr: PairRound)
    requires TotalsOk(t)
    ensures CreditsOk(Credit(t.contrib, p1, p2, pr), AddNat(AddNat(t.rounds, p1, 1), p2, 1))
  {
    var rounds := AddNat(AddNat(t.rounds, p1, 1), p2, 1);
    var contrib := Credit(t.contrib, p1, p2, pr);
    forall p | p in contrib
      ensures p in rounds && 1 <= contrib[p] <= rounds[p]
    {
      var before := GetNat(t.rounds, p);
      assert GetNat(t.contrib, p) <= before;
      assert rounds[p] == before + (if p == p1 then 1 else 0) + (if p == p2 then 1 else 0);
      assert contrib[p] <= GetNat(t.contrib, p) + (if p == p1 || p == p2 then 1 else 0);
    }
  }

  /** `{p: contrib[p] / rounds[p] for p in contrib}`: the share of its
      rounds each credited player won, in (0, 1]. */
  function Shares(contrib: map<string, nat>, rounds: map<string, nat>): (r: map<string, real>)
    requires CreditsOk(contrib, rounds)
    ensures r.Keys == contrib.Keys
    ensures forall p | p in r :: Averages(r[p], rounds[p], contrib[p] as real) && 0.0 < r[p] <= 1.0
  {
    map p | p in contrib :: Ratio(contrib[p] as real, rounds[p])
  }

  /** Everything a round adds to the player totals outside the country
      branch: scores, distances, contribution credit and rounds played. */
  function CreditRound(t: PlayerTotals, p1: string, p2: string, pr: PairRound): (r: PlayerTotals)
    requires TotalsOk(t)
    ensures TotalsOk(r)
    ensures r.rounds.Keys == t.rounds.Keys + {p1, p2}
    ensures r.contrib == Credit(t.contrib, p1, p2, pr)
    ensures r.fiveKs == t.fiveKs
  {
    CreditBounded(t, p1, p2, pr);
    PlayerTotals(
      Credit(t.contrib, p1, p2, pr),
      AddNat(AddNat(t.rounds, p1, 1), p2, 1),
      AddInt(AddInt(t.scores, p1, pr.one.score), p2, pr.two.score),
      AddReal(AddReal(t.distances, p1, pr.one.distance), p2, pr.two.distance),
      t.fiveKs)
  }

  /** Each of the two players gains one round, its own score and its own
      distance; every other player's totals stay as they were. */
  lemma CreditRoundValues(t: PlayerTotals, p1: string, p2: string, pr: PairRound, p: string)
    requires TotalsOk(t)
    ensures GetNat(CreditRound(t, p1, p2, pr).rounds, p) ==
              GetNat(t.rounds, p) + (if p == p1 then 1 else 0) + (if p == p2 then 1 else 0)
    ensures Get(CreditRound(t, p1, p2, pr).scores, p) ==
              Get(t.scores, p) + (if p == p1 then pr.one.score else 0) + (if p == p2 then pr.two.score else 0)
    ensures GetReal(CreditRound(t, p1, p2, pr).distances, p) ==
              GetReal(t.distances, p) + (if p == p1 then pr.one.distance else 0.0) + (if p == p2 then pr.two.distance else 0.0)
  {
    AddNatTwice(t.rounds, p1, 1, p2, 1);
    AddIntTwice(t.scores, p1, pr.one.score, p2, pr.two.score);
    AddRealTwice(t.distances, p1, pr.one.distance, p2, pr.two.distance);
  }

  /** `player_total_5ks`: counted only inside the country branch. */
  function CountFiveKs(m: map<string, nat>, p1: string, p2: string, pr: PairRound): map<string, nat> {
    var m1 := if pr.one.score == FiveK then AddNat(m, p1, 1) else m;
    if pr.two.score == FiveK then AddNat(m1, p2, 1) else m1
  }

  /** Each of the two players gains one 5k per 5000-point score; nobody
      else gains anything. */
  lemma CountFiveKsValue(m: map<string, nat>, p1: string, p2: string, pr: PairRound, p: string)
    ensures GetNat(CountFiveKs(m, p1, p2, pr), p) ==
              GetNat(m, p) + (if p == p1 && IsFiveK(pr.one.score) then 1 else 0) + (if p == p2 && IsFiveK(pr.two.score) then 1 else 0)
    ensures p in CountFiveKs(m, p1, p2, pr) ==> p in m || p == p1 || p == p2
  {
    var m1 := if pr.one.score == FiveK then AddNat(m, p1, 1) else m;
    assert GetNat(m1, p) == GetNat(m, p) + (if p == p1 && IsFiveK(pr.one.score) then 1 else 0);
  }

  /** The part of a country bucket both team aggregations keep. */
  datatype PairCountry = PairCountry(
    rounds: nat,
    teamScores: seq<int>,
    teamDistances: seq<real>,
    playerScores: map<string, seq<int>>,
    playerDistances: map<string, seq<real>>,
    player5ks: map<string, nat>)

  function NewPairCountry(): (c: PairCountry)
    ensures PairCountryOk(c) && c.rounds == 0 && c.playerScores == map[]
  {
    PairCountry(0, [], [], map[], map[], map[])
  }

  /** One list entry per round, and no player with more 5ks than rounds. */
  ghost predicate PairCountryOk(c: PairCountry) {
    && |c.teamScores| == c.rounds
    && |c.teamDistances| == c.rounds
    && forall p | p in c.player5ks :: p in c.playerScores && c.player5ks[p] <= |c.playerScores[p]|
  }

  /** A country round: the team's best score and distance, both players'
      scores and distances, and their 5ks. */
  function AddCountryRound(c: PairCountry, p1: string, p2: string, pr: PairRound): (r: PairCountry)
    requires PairCountryOk(c)
    ensures PairCountryOk(r)
    ensures r.rounds == c.rounds + 1
    ensures r.teamScores == c.teamScores + [TeamScore(pr)]
    ensures r.teamDistances == c.teamDistances + [TeamDistance(pr)]
    ensures r.playerScores.Keys == c.playerScores.Keys + {p1, p2}
    ensures r.playerDistances.Keys == c.playerDistances.Keys + {p1, p2}
  {
    var scores := AppendTo(AppendTo(c.playerScores, p1, pr.one.score), p2, pr.two.score);
    var fives := CountFiveKs(c.player5ks, p1, p2, pr);
    FivesWithinRounds(c, p1, p2, pr);
    PairCountry(
      c.rounds + 1,
      c.teamScores + [TeamScore(pr)],
      c.teamDistances + [TeamDistance(pr)],
      scores,
      AppendTo(AppendTo(c.playerDistances, p1, pr.one.distance), p2, pr.two.distance),
      fives)
  }

  lemma FivesWithinRounds(c: PairCountry, p1: string, p2: string, pr: PairRound)
    requires PairCountryOk(c)
    ensures var scores := AppendTo(AppendTo(c.playerScores, p1, pr.one.score), p2, pr.two.score);
      var fives := CountFiveKs(c.player5ks, p1, p2, pr);
      forall p | p in fives :: p in scores && fives[p] <= |scores[p]|
  {
    var scores := AppendTo(AppendTo(c.playerScores, p1, pr.one.score), p2, pr.two.score);
    var fives := CountFiveKs(c.player5ks, p1, p2, pr);
    forall p | p in fives
      ensures p in scores && fives[p] <= |scores[p]|
    {
      CountFiveKsValue(c.player5ks, p1, p2, pr, p);
      AppendToTwice(c.playerScores, p1, pr.one.score, p2, pr.two.score);
      assert GetNat(c.player5ks, p) <= |GetSeq(c.playerScores, p)|;
    }
  }

  /** Each of the two players' lists gains its own score and distance, and
      its 5k count grows by one for a 5000-point round; every other
      player's lists stay as they were. */
  lemma AddCountryRoundValues(c: PairCountry, p1: string, p2: string, pr: PairRound, p: string)
    requires PairCountryOk(c)
    ensures GetSeq(AddCountryRound(c, p1, p2, pr).playerScores, p) ==
              GetSeq(c.playerScores, p) + (if p == p1 then [pr.one.score] else []) + (if p == p2 then [pr.two.score] else [])
    ensures GetSeq(AddCountryRound(c, p1, p2, pr).playerDistances, p) ==
              GetSeq(c.playerDistances, p) + (if p == p1 then [pr.one.distance] else []) + (if p == p2 then [pr.two.distance] else [])
    ensures GetNat(AddCountryRound(c, p1, p2, pr).player5ks, p) ==
              GetNat(c.player5ks, p) + (if p == p1 && IsFiveK(pr.one.score) then 1 else 0) + (if p == p2 && IsFiveK(pr.two.score) then 1 else 0)
  {
    AppendToTwice(c.playerScores, p1, pr.one.score, p2, pr.two.score);
    AppendToTwice(c.playerDistances, p1, pr.one.distance, p2, pr.two.distance);
    CountFiveKsValue(c.player5ks, p1, p2, pr, p);
  }

  /** The finalised columns both team aggregations report for a country. */
  datatype PairCountryStats = PairCountryStats(
    rounds: nat,
    avgTeamScore: real,
    avgTeamDistanceKm: real,
    avgPlayerScore: map<string, real>,
    avgPlayerDistanceKm: map<string, real>,
    player5kRate: map<string, real>)

  function Km(metres: real): (km: real)
    ensures km * 1000.0 == metres
  {
    metres / 1000.0
  }

  /** A mean in kilometres, scaled back to metres and by the count, is the
      sum in metres. */
  lemma KmMean(s: seq<real>)
    ensures Averages(Km(MeanReals(s)) * 1000.0, |s|, SumReals(s))
  {
    assert Km(MeanReals(s)) * 1000.0 == MeanReals(s);
  }

  /** `{p: mean(v) for p, v in m.items()}`. */
  function MeanScores(m: map<string, seq<int>>): (r: map<string, real>)
    ensures r.Keys == m.Keys
    ensures forall p | p in r :: Averages(r[p], |m[p]|, SumInts(m[p]) as real)
  {
    map p | p in m :: MeanInts(m[p])
  }

  /** `{p: mean(v) / 1000 for p, v in m.items()}`. */
  function MeanKms(m: map<string, seq<real>>): (r: map<string, real>)
    ensures r.Keys == m.Keys
    ensures forall p | p in r :: Averages(r[p] * 1000.0, |m[p]|, SumReals(m[p]))
  {
    assert forall p | p in m :: Averages(Km(MeanReals(m[p])) * 1000.0, |m[p]|, SumReals(m[p])) by {
      forall p | p in m
        ensures Averages(Km(MeanReals(m[p])) * 1000.0, |m[p]|, SumReals(m[p]))
      {
        KmMean(m[p]);
      }
    }
    map p | p in m :: Km(MeanReals(m[p]))
  }

  /** Each player's 5k count over its number of rounds. */
  function FiveKRates(scores: map<string, seq<int>>, fives: map<string, nat>): (r: map<string, real>)
    requires forall p | p in fives :: p in scores && fives[p] <= |scores[p]|
    ensures r.Keys == scores.Keys
    ensures forall p | p in r :: Averages(r[p], |scores[p]|, GetNat(fives, p) as real)
    ensures forall p | p in r :: 0.0 <= r[p] <= 1.0
  {
    map p | p in scores :: CountRate(GetNat(fives, p), |scores[p]|)
  }

  /** `n / d` for a count `n` of `d` rounds; 0 when there are no rounds. */
  function CountRate(n: nat, d: nat): (r: real)
    requires n <= d
    ensures Averages(r, d, n as real)
    ensures 0.0 <= r <= 1.0
  {
    Ratio(n as real, d)
  }

  /** Each average times its count gives back the sum it averages (so an
      empty list averages to 0); distances are reported in kilometres; a
      player's 5k rate is its 5k count over its rounds here, within [0, 1]. */
  function FinishPairCountry(c: PairCountry): (s: PairCountryStats)
    requires PairCountryOk(c)
    ensures s.rounds == c.rounds
    ensures Averages(s.avgTeamScore, c.rounds, SumInts(c.teamScores) as real)
    ensures Averages(s.avgTeamDistanceKm * 1000.0, c.rounds, SumReals(c.teamDistances))
    ensures c.rounds == 0 ==> s.avgTeamScore == 0.0 && s.avgTeamDistanceKm == 0.0
    ensures s.avgPlayerScore.Keys == c.playerScores.Keys
    ensures forall p | p in s.avgPlayerScore ::
              Averages(s.avgPlayerScore[p], |c.playerScores[p]|, SumInts(c.playerScores[p]) as real)
    ensures s.avgPlayerDistanceKm.Keys == c.playerDistances.Keys
    ensures forall p | p in s.avgPlayerDistanceKm ::
              Averages(s.avgPlayerDistanceKm[p] * 1000.0, |c.playerDistances[p]|, SumReals(c.playerDistances[p]))
    ensures s.player5kRate.Keys == c.playerScores.Keys
    ensures forall p | p in s.player5kRate ::
              Averages(s.player5kRate[p], |c.playerScores[p]|, GetNat(c.player5ks, p) as real)
    ensures forall p | p in s.player5kRate :: 0.0 <= s.player5kRate[p] <= 1.0
  {
    var team := Km(MeanReals(c.teamDistances));
    KmMean(c.teamDistances);
    PairCountryStats(
      c.rounds,
      MeanInts(c.teamScores),
      team,
      MeanScores(c.playerScores),
      MeanKms(c.playerDistances),
      FiveKRates(c.playerScores, c.player5ks))
  }
}
