# Geoguessr dashboard statistics, modelled in Dafny

This project models the statistics engine behind a Geoguessr duels dashboard.
It covers five parts of the program:

- **The feed walk** (`geoguessr/fetch_games.py`, `fetch_filtered_tokens`). Pages of the private activity feed are read in order until one does not continue. Items are filtered by game type (team, solo, any) and by ranked/casual mode. The result is the set of game ids.
- **The team-duel normaliser** (`geoguessr/fetch_games.py`, `fetch_team_duels`). One duel-server response becomes the stored team-game record. The record holds my team's totals and the score difference against the enemy team, one entry per player, and one row per round with the enemy's best score. Games are skipped on a bad status, a missing team, a missing teammate, a missing enemy team, or a guess whose round does not exist.
- **The aggregations** (`geoguessr/process_stats.py`).
  - `process_games` folds team games into overall counters (wins, rounds, merchant games), per-player contribution and timing, and per-country buckets. The buckets are ranked by average score difference, with top and bottom ten views over countries with at least 20 rounds. Hit rates come from one batched reverse-geocoding pass.
  - `process_duels` does the same for solo duels.
  - The older root `process_stats.py` computes a subset of the team report. It is proved to agree with the current one on every shared column.
- **The cleanup** (`cleanup_anomalous_games.py`). It keeps the standard games: exactly two players, each with at least one round. Every other game gets a removal record carrying the first reason that applies.
- **The anomaly finder** (`geoguessr/find_anomalous_games.py`). It lists every game with an idle player, a player count other than two, or a missing own id. It counts games per player, ranks players by that count, and flags players seen in five games or fewer.

Modelling conventions:

- Python dicts that keep insertion order are an ordered dictionary: a key sequence plus a map (`Ordered.Dict`).
- A `defaultdict` becomes an explicit "get or zero".
- `x / n if n else 0` is `Common.Ratio`.
- An exception that stops a run is an `Err` of a `Result`. So is a `continue` that skips a game.
- The reverse geocoder is a function parameter (`Geocoder`). So is the point formula `calculate_score` (`Scorer`).
- Timestamps are given as seconds (`real`).

## Model

| member | source | states |
|---|---|---|
| Common.Ratio | geoguessr/process_stats.py:187-190 | a zero denominator yields 0; otherwise the result times the denominator is the numerator, and a share of a positive count lies in [0, 1] |
| Common.OrElse | geoguessr/fetch_games.py:40-41 | Python's `a or b` on optional text: the first operand when it is present and non-empty, else the second |
| Common.PyIndex | geoguessr/fetch_games.py:107 | Python list indexing: in range from either end gives that element, and anything else raises |
| Common.Dedup | geoguessr/fetch_games.py:64 | `list(set(...))`: no repeats and exactly the same members as the input |
| Common.Lower | geoguessr/process_stats.py:130 | lower-casing keeps the length and maps each character |
| Common.LowerIdempotent | geoguessr/process_stats.py:175-179 | lower-casing an already lower-cased country code changes nothing, so a bucket key compares equal to its own lower-cased form |
| Common.CountWherePositive | geoguessr/find_anomalous_games.py:49 | a count of matching elements is positive exactly when some element matches |
| Ordered.Put | geoguessr/process_stats.py:131 | a new key is appended to the key order; an existing key keeps its place and only its value changes |
| Ordered.Items | geoguessr/process_stats.py:209 | `.items()` lists each key in insertion order with its value |
| Ordered.InItems | geoguessr/process_stats.py:209 | a key-value pair is among the items exactly when the key is present with that value |
| Ranking.SortDesc | geoguessr/process_stats.py:241-245 | `sorted(..., reverse=True)` yields a permutation of its input, ordered by non-increasing key |
| Ranking.InsertKeepsOrder | geoguessr/process_stats.py:241-245 | inserting into a descending list keeps it descending |
| Ranking.Filter | geoguessr/process_stats.py:250 | the comprehension keeps one copy per matching element (its length is the number of matches); every survivor matches and comes from the input, and every matching input element survives |
| Ranking.FilterCounts | geoguessr/process_stats.py:250 | each matching value survives exactly as often as it occurs in the input, and a non-matching value not at all |
| Ranking.FilterIsSubsequence | geoguessr/process_stats.py:250 | the filtered list is an order-preserving subsequence of its source |
| Ranking.FilterKeepsOrder | geoguessr/process_stats.py:250 | filtering a ranked list leaves it ranked |
| Ranking.Top | geoguessr/process_stats.py:252 | `eligible[:10]` is the first min(10, n) elements |
| Ranking.Bottom | geoguessr/process_stats.py:253 | `eligible[-10:]` is the last min(10, n) elements |
| Ranking.ViewsAreExtremes | geoguessr/process_stats.py:250-253 | every element of the top view ranks at least as high as every element left out, and every element left out ranks at least as high as every element of the bottom view |
| Ranking.RankedViews | geoguessr/process_stats.py:250-253 | both views come from the eligible elements of a ranked list, and each view is drawn from that ranked order |
| HitRate.Batch | geoguessr/process_stats.py:170 | the geocoder batch holds every queued coordinate exactly once |
| HitRate.GuessMap | geoguessr/process_stats.py:137-141 | the coordinate map is keyed by exactly the queued coordinates |
| HitRate.BatchGroupsMatchPerGuess | geoguessr/process_stats.py:169-180 | resolving the batch group by group gives every bucket the same tally as judging each queued guess on its own |
| HitRate.Resolve | geoguessr/process_stats.py:169-180 | after the batched pass, every bucket's tally equals the per-guess reference: one guess per queued entry for that bucket, and one hit per such entry whose geocoded country, lower-cased, equals the bucket |
| HitRate.Expected | geoguessr/process_stats.py:177-180 | the reference tally of a bucket counts exactly its queued entries, and its hits never exceed that count |
| HitRate.PlusLaws | geoguessr/process_stats.py:177-180 | tallies add with a zero, associatively and in any order, so the order of the batch does not matter |
| Records.FindGuess | geoguessr/process_stats.py:78-79 | `{r["roundNumber"]: r ...}.get(rn)`: absent exactly when no guess has that round; otherwise the LAST guess with it (a later key overwrites) |
| Records.FindDuelRound | geoguessr/process_stats.py:313 | the same lookup for solo round statistics: absent exactly when no entry has the round, otherwise the last one |
| Records.PlayerIds | geoguessr/process_stats.py:72 | `list(playerStats.keys())`: the ids in stored order |
| Records.MerchantsExclusive | geoguessr/process_stats.py:59-69 | a game is never both a multi-merchant (lost while outscoring) and a reverse-merchant game (won while outscored), and a multi-merchant game is a loss |
| PairRounds.SideOf | geoguessr/process_stats.py:88-96 | a missing guess reads as score 0, the map diagonal as distance and no time; a present one reads its own score, distance and time |
| PairRounds.ReadRound | geoguessr/process_stats.py:84-99 | each player's side comes from their guess for that round; the country is the first player's when present, else the second's, and none when neither guessed |
| PairRounds.TeamScore | geoguessr/process_stats.py:102 | the team score is the better of the two scores |
| PairRounds.TeamDistance | geoguessr/process_stats.py:103 | the team distance is the closer of the two distances |
| PairRounds.Credit | geoguessr/process_stats.py:120-123 | the strictly closer player gets one contribution point; a tie credits nobody |
| PairRounds.CreditBounded | geoguessr/process_stats.py:119-126 | no player's contribution count ever exceeds their played rounds, so each contribution share is in [0, 1] |
| PairRounds.Shares | geoguessr/process_stats.py:189-192 | one contribution share per credited player: credited rounds over played rounds, in (0, 1] |
| PairRounds.CreditRound | geoguessr/process_stats.py:105-126 | a round adds both players to the played-rounds table, credits the closer player as `Credit` does, and leaves the 5k totals to the country step |
| PairRounds.CreditRoundValues | geoguessr/process_stats.py:105-126 | per player, the round adds one played round, their own score and their own distance to the running totals (twice for a player listed as both), and nothing for anyone else |
| PairRounds.AddCountryRound | geoguessr/process_stats.py:143-158 | a bucket round adds one round and appends the team score and team distance; both players gain a per-player score and distance list |
| PairRounds.AddCountryRoundValues | geoguessr/process_stats.py:147-158 | per player, the bucket round appends that player's own score and distance to their lists and adds one 5k exactly when they scored 5000; other players are untouched |
| PairRounds.FinishPairCountry | geoguessr/process_stats.py:210-226 | bucket averages: the round count carries over; team score, team distance (in km) and each player's score and distance are the mean of their lists (0 when empty); each player's 5k rate is their 5ks over their scored rounds, in [0, 1] |
| PairRounds.CountRate | geoguessr/process_stats.py:237 | a count over a total it cannot exceed is a rate whose product with the total is the count, in [0, 1] |
| TeamDuels.CreditTime | geoguessr/process_stats.py:111-117 | a timed guess adds its player to the timing table; an untimed one changes nothing |
| TeamDuels.CreditTimeValues | geoguessr/process_stats.py:111-117 | per player, a timed guess adds its time to the total time and one timed round; any other player, and an untimed guess, adds nothing |
| TeamDuels.AddTeamRound | geoguessr/process_stats.py:160-167 | a bucket round records the team score minus the enemy's best, and the bucket's win count stays the number of positive differences |
| TeamDuels.CountryStep | geoguessr/process_stats.py:129-167 | a round with a country queues the picked guess's coordinate for that bucket, adds the round to that bucket, counts both players' 5ks, and leaves counters and timing alone |
| TeamDuels.CountryStepBuckets | geoguessr/process_stats.py:129-167 | only the round's bucket changes: it gains one round and the score difference team score minus enemy best; a new bucket is appended to the bucket order |
| TeamDuels.RoundStep | geoguessr/process_stats.py:84-167 | one round keeps the accumulator well formed and the game counters unchanged; it fails with no guess to geocode exactly when the round has a country but the picked guess is absent, and with a missing round statistic exactly when the picked guess exists and the round is past the list |
| TeamDuels.RoundBuckets | geoguessr/process_stats.py:84-167 | a successful round adds one round to exactly the bucket of its lower-cased country and leaves every other bucket as it was; a round without a country queues nothing and touches no bucket |
| TeamDuels.RoundBucket | geoguessr/process_stats.py:143-167 | the bucket a round lands in becomes the old bucket plus that round, with the enemy best score read from round statistic `rn - 1` |
| TeamDuels.RoundStepCountry | geoguessr/process_stats.py:128-167 | a successful round with a country is the player credit followed by the country step for its lower-cased country, with the picked guess (the first player's when they outscored the second, else the second's) and the enemy best score of round statistic `rn - 1` |
| TeamDuels.RoundsUpTo | geoguessr/process_stats.py:84-167 | a game's round loop succeeds exactly when every round up to the last fits, keeps the game counters, and fails only on a missing guess to geocode or a missing round statistic, the latter only past the end of the list |
| TeamDuels.RoundsUpToBuckets | geoguessr/process_stats.py:84-167 | after a game's round loop, a bucket has gained exactly the game's rounds whose country lower-cases to it |
| TeamDuels.GameStep | geoguessr/process_stats.py:50-167 | a game counts once, with its win, its merchant flags and its last round number; it fails with too few players exactly when it has fewer than two, and with no round statistics exactly when its list is empty |
| TeamDuels.GameStepBuckets | geoguessr/process_stats.py:84-167 | a successful game adds to each bucket exactly its rounds whose country lower-cases to that bucket |
| TeamDuels.FoldGames | geoguessr/process_stats.py:50-167 | the fold succeeds exactly when every game fits; the counters are then the number of games, the won games, the rounds played and the two merchant counts; a missing round statistic implies some game's round list is misaligned |
| TeamDuels.FoldBuckets | geoguessr/process_stats.py:128-143 | after all games, each bucket's round count is the number of rounds, over all games, whose country lower-cases to it |
| TeamDuels.Overall | geoguessr/process_stats.py:185-205 | the overall block: game count; win percentage and average rounds as averages over the games (0 with none); one contribution share in (0, 1] per credited player, one average score per scored player, one average time per timed player; the 5k table and merchant counts as accumulated |
| TeamDuels.OverallPlayer | geoguessr/process_stats.py:189-202 | per player: contribution share is credited over played rounds, average score is total score over played rounds (0 with none), average time is total time over timed rounds |
| TeamDuels.FinishCountry | geoguessr/process_stats.py:209-238 | a country row: the shared averages; average score difference and win rate as averages over the bucket's rounds, the win rate in [0, 1]; hit rate as hits over guesses (0 with none), in [0, 1] when hits do not exceed guesses |
| TeamDuels.Rows | geoguessr/process_stats.py:208-238 | one row per bucket, in bucket order, each finished with that bucket's hit tally |
| TeamDuels.Report | geoguessr/process_stats.py:182-255 | the report is a descending-by-score-difference permutation of the rows, and the two views are the first and last ten rows with at least 20 rounds |
| TeamDuels.ProcessGames | geoguessr/process_stats.py:9-255 | `process_games` succeeds exactly when every game fits (at least two players, a round list, every country round with a guess to geocode and a round statistic), and then reports the folded state |
| TeamDuels.MerchantGamesBounded | geoguessr/process_stats.py:59-69 | multi- plus reverse-merchant games never outnumber the games, and neither do the wins |
| TeamDuels.TeamEmptyInput | geoguessr/process_stats.py:185-253 | no games give zero counters, zero rates and empty country lists |
| TeamDuels.TeamOverallFacts | geoguessr/process_stats.py:185-205 | the game count is the input length; the win percentage is won games over games and lies in [0, 1]; average rounds is rounds played over games; merchant counts are the games matching each pattern and never exceed the game count; contribution shares are in (0, 1] |
| TeamDuels.HitTalliesMatchRounds | geoguessr/process_stats.py:133-180 | each bucket's hit tally totals exactly its round count, because every country round queues one guess |
| TeamDuels.RowRates | geoguessr/process_stats.py:233-237 | every row names a bucket, reports its round count, and has hit rate and win rate in [0, 1] |
| TeamDuels.TeamCountryRates | geoguessr/process_stats.py:208-247 | every ranked country is a bucket with its own round count and rates in [0, 1] |
| TeamDuels.PermutedRowRates | geoguessr/process_stats.py:208-247 | any reordering of the rows keeps each row's bucket, round count and rates in [0, 1] |
| TeamDuels.TeamCountryRounds | geoguessr/process_stats.py:128-143 | every country row of a successful run counts exactly the games' rounds whose country lower-cases to it |
| TeamDuels.TeamRanking | geoguessr/process_stats.py:240-253 | countries are ranked by average score difference; the eligible list is a subsequence of the ranking, and both views hold only countries with 20 or more rounds |
| TeamDuels.TeamViewsExtremes | geoguessr/process_stats.py:250-253 | no eligible country outside the top ten has a higher score difference than one inside it, and likewise for the bottom ten |
| TeamDuels.AlignedGamesNeverMissRoundStat | geoguessr/process_stats.py:161 | when every round number up to a game's last one indexes its round list, the `roundStats[rn - 1]` lookup never fails |
| TeamDuels.ExtraPlayersIgnored | geoguessr/process_stats.py:72-73 | only the first two players of a game are read; any later ones make no difference |
| TeamDuels.ThreePlayerGameIsCounted | tests/test_process_stats.py:185-193 | a three-player game is processed and counted (total games 1), not skipped |
| TeamDuels.MissingGuessRoundFaults | geoguessr/process_stats.py:134-141 | a country round guessed only by the first player, who scored 0, fails with no guess to geocode, because the tie sends the lookup to the absent second guess |
| TeamDuels.MissingTeammateGuessFaults | geoguessr/process_stats.py:134-141 | a country round in which only the first player guessed, scoring 0, makes the geocoding step read the absent second guess and fail |
| SoloDuels.ReadSoloRound | geoguessr/process_stats.py:315-328 | the side comes from my guess for the round; the country is the guess's own when it has one, and otherwise (no guess, or a guess without a country) the round statistic's; it is absent exactly when neither the guess nor the round statistic names one |
| SoloDuels.CreditSolo | geoguessr/process_stats.py:330-338 | a round adds its score and distance to the totals, its time and one timed round when it has a time, and one 5k exactly when it scored 5000 |
| SoloDuels.AddDuelRound | geoguessr/process_stats.py:350-363 | a bucket round adds one round and its score difference against the enemy's score |
| SoloDuels.DuelCountryStep | geoguessr/process_stats.py:340-363 | a round with a country adds the round to its bucket, queues a coordinate only when there was a guess, and leaves counters and totals alone |
| SoloDuels.DuelCountryStepBuckets | geoguessr/process_stats.py:340-363 | only the round's bucket changes, by one round with its score, distance and difference against the enemy score; a new bucket is appended to the bucket order |
| SoloDuels.DuelRoundStep | geoguessr/process_stats.py:313-363 | one round credits the totals as `CreditSolo`, keeps the counters, and queues the guess for the lower-cased country exactly when the round has a country and a guess |
| SoloDuels.DuelRoundBuckets | geoguessr/process_stats.py:340-363 | a round adds one round to exactly the bucket of its lower-cased country and leaves every other bucket as it was |
| SoloDuels.DuelRoundBucket | geoguessr/process_stats.py:350-363 | the bucket a round lands in becomes the old bucket plus that round's score, distance and enemy score |
| SoloDuels.DuelRoundsUpToBuckets | geoguessr/process_stats.py:309-363 | after a duel's round loop, a bucket has gained exactly the rounds whose country lower-cases to it |
| SoloDuels.DuelRoundsUpToTotals | geoguessr/process_stats.py:330-338 | after a duel's round loop, the score total has grown by the rounds' scores, the 5k count by the rounds that scored 5000, and the time total and timed-round count by the rounds that carry a time |
| SoloDuels.DuelGameStep | geoguessr/process_stats.py:288-363 | a duel counts once with its win and merchant flags and the length of its round list, and adds at most one 5k and one timed round per listed round |
| SoloDuels.FoldDuels | geoguessr/process_stats.py:288-363 | after all duels, the counters are the duels, the won duels, the listed rounds and the merchant counts, and 5ks and timed rounds never exceed the listed rounds |
| SoloDuels.FoldDuelsSums | geoguessr/process_stats.py:288-363 | after all duels, each bucket's round count is the number of rounds whose country lower-cases to it; the score, 5k, time and timed-round totals are those of every round played |
| SoloDuels.DuelOverallOf | geoguessr/process_stats.py:381-389 | the overall block: game and 5k counts; win percentage and average rounds over the games, average score over the rounds, average time over the timed rounds, each 0 when its count is 0; merchant counts as accumulated |
| SoloDuels.FinishDuelCountry | geoguessr/process_stats.py:393-402 | a solo country row: its bucket's rounds; average score, distance (km) and score difference over the rounds; 5k rate and win rate as averages over the rounds, in [0, 1]; hit rate as hits over guesses, in [0, 1] when hits do not exceed guesses |
| SoloDuels.DuelRows | geoguessr/process_stats.py:392-402 | one solo row per bucket, in bucket order, each finished with that bucket's hit tally |
| SoloDuels.DuelReportOf | geoguessr/process_stats.py:378-418 | the solo report is a descending permutation of the rows, with top and bottom ten over countries with at least 20 rounds |
| SoloDuels.ProcessDuels | geoguessr/process_stats.py:257-418 | `process_duels` never fails; its game count is the input length; its 5k total is the number of 5000-point rounds over all games; its average score is the summed round scores over the listed rounds (0 with no rounds) |
| SoloDuels.DuelMerchantsBounded | geoguessr/process_stats.py:304-307 | multi- plus reverse-merchant duels never outnumber the duels |
| SoloDuels.DuelOverallFacts | geoguessr/process_stats.py:381-389 | the game count is the input length; the win percentage is won duels over duels and lies in [0, 1]; average rounds is listed rounds over duels; average score is the summed round scores over listed rounds and average guess time the summed times over timed rounds (each 0 without a denominator); the 5k total counts the 5000-point rounds; merchant counts match the patterns and stay within the game count |
| SoloDuels.DuelEmptyInput | geoguessr/process_stats.py:378-418 | no duels give an all-zero report |
| SoloDuels.DuelHitsAtMostRounds | geoguessr/process_stats.py:344-376 | a solo bucket's hit tally is the per-guess tally and never covers more than its rounds, since unguessed rounds are not geocoded |
| SoloDuels.DuelRowRates | geoguessr/process_stats.py:394-402 | every solo row names a bucket with its round count, and its hit, win and 5k rates are in [0, 1] |
| SoloDuels.DuelCountryRates | geoguessr/process_stats.py:392-402 | every ranked solo country has hit, win and 5k rates in [0, 1] |
| SoloDuels.DuelCountryRoundsRow | geoguessr/process_stats.py:340-363 | every solo country row counts exactly the duels' rounds whose country lower-cases to it |
| SoloDuels.DuelRanking | geoguessr/process_stats.py:404-416 | solo countries are ranked by average score difference, and both views hold only countries with 20 or more rounds |
| SoloDuels.MissedRoundCountsForRoundCountry | geoguessr/process_stats.py:319-363 | an unguessed round still lands in the round statistic's country bucket with score 0, and queues nothing for geocoding |
| SoloDuels.GuessWithoutCountryUsesRoundCountry | geoguessr/process_stats.py:319-363 | a guess without a country of its own takes the round statistic's country: the round lands in that bucket and the guess's coordinate is queued under it |
| LegacyTeamDuels.LegacyCountryStep | process_stats.py:94-110 | a round with a country adds the round to that bucket, counts both players' 5ks, and leaves the game counters alone |
| LegacyTeamDuels.LegacyCountryStepBuckets | process_stats.py:94-110 | only the round's bucket changes, by one round; a new bucket is appended to the bucket order |
| LegacyTeamDuels.LegacyRoundStep | process_stats.py:55-110 | one round credits both players as `CreditRound` does, counts their 5ks only when the round has a country, and keeps the game counters |
| LegacyTeamDuels.LegacyRoundBuckets | process_stats.py:55-110 | a round adds one round to exactly the bucket of its lower-cased country and leaves every other bucket as it was |
| LegacyTeamDuels.LegacyRoundBucket | process_stats.py:94-110 | the bucket a round lands in becomes the old bucket plus that round |
| LegacyTeamDuels.LegacyRoundsUpToBuckets | process_stats.py:55-110 | after a game's round loop, a bucket has gained exactly the rounds whose country lower-cases to it |
| LegacyTeamDuels.LegacyGameStep | process_stats.py:33-110 | a game is accepted exactly when it has two players and a non-empty round list, and then counts once with its win and last round number |
| LegacyTeamDuels.LegacyFold | process_stats.py:33-110 | the older fold succeeds exactly when every game has that shape, and then counts games, wins and rounds played |
| LegacyTeamDuels.LegacyFoldBuckets | process_stats.py:94-97 | after all games, each bucket's round count is the number of rounds whose country lower-cases to it |
| LegacyTeamDuels.AllShapedIff | process_stats.py:41-52 | the game-by-game shape check passes exactly when every game has two players and a non-empty round list |
| LegacyTeamDuels.LegacyOverallOf | process_stats.py:115-128 | the older overall block: game count; win percentage and average rounds over the games (0 with none); one contribution share in (0, 1] per credited player and one average score per scored player; the 5k table as accumulated |
| LegacyTeamDuels.LegacyOverallPlayer | process_stats.py:115-128 | per player: contribution share is credited over played rounds, average score is total score over played rounds (0 with none) |
| LegacyTeamDuels.LegacyRows | process_stats.py:131-150 | one shared-column row per bucket, in bucket order |
| LegacyTeamDuels.LegacyReportOf | process_stats.py:112-166 | the older report ranks rows by average team score as a permutation, with top and bottom ten over countries with at least 20 rounds |
| LegacyTeamDuels.LegacyProcess | process_stats.py:8-166 | the older `process_games` succeeds exactly when every game has two players and a round list |
| LegacyTeamDuels.LegacyOverallFacts | process_stats.py:115-128 | the game count is the input length; the win percentage is won games over games and lies in [0, 1]; average rounds is rounds played over games; contribution shares are in (0, 1] |
| LegacyTeamDuels.LegacyCountryRounds | process_stats.py:94-97 | every country row of a successful older run counts exactly the games' rounds whose country lower-cases to it |
| LegacyTeamDuels.LegacyRanking | process_stats.py:152-164 | countries are ranked by average team score, and both views hold only countries with 20 or more rounds |
| LegacyTeamDuels.RoundAgrees | process_stats.py:55-91 | one round moves the older and the current state in step |
| LegacyTeamDuels.RoundsAgree | process_stats.py:55-110 | a game's whole round loop moves both states in step |
| LegacyTeamDuels.FoldsAgree | process_stats.py:33-110 | whenever the current fold succeeds, the older one does too, and its state is the current one without the extra columns |
| LegacyTeamDuels.SharedColumnsAgree | process_stats.py:115-128 | on every input the current aggregation accepts, both report the same game count, win percentage, average rounds, contribution shares, individual averages and 5k totals |
| LegacyTeamDuels.OverallAgrees | process_stats.py:115-128 | states that agree give identical shared overall columns |
| LegacyTeamDuels.CountryColumnsAgree | process_stats.py:131-150 | every bucket's shared columns coincide with the current report's, bucket by bucket in creation order |
| LegacyTeamDuels.RowsAgree | process_stats.py:131-150 | states that agree give the same shared-column rows |
| LegacyTeamDuels.LegacyIgnoresEnemyBest | process_stats.py:51-110 | the older code never reads `roundStats[rn - 1]`, so it accepts a game whose round list is shorter than its last round number |
| FeedFilter.Keep | geoguessr/fetch_games.py:38-56 | a kept item yields its own non-empty game id |
| FeedFilter.KeepIffAdmitted | geoguessr/fetch_games.py:38-56 | an item is kept exactly when it has an id and a mode, matches the requested game type, and matches the ranked/casual filter |
| FeedFilter.NoFilterKeepsAllNamed | geoguessr/fetch_games.py:45-56 | with no type and no mode filter, exactly the items with both an id and a mode are kept |
| FeedFilter.KeptIdsMembers | geoguessr/fetch_games.py:38-56 | an id is collected from a page's items exactly when some item keeps it |
| FeedFilter.PageItemsMembers | geoguessr/fetch_games.py:29-36 | the items of a page are exactly those of its entries whose payload parsed |
| FeedFilter.BadEntrySkipped | geoguessr/fetch_games.py:30-35 | an entry whose payload is not text or does not parse contributes nothing and does not stop the page |
| FeedFilter.Walked | geoguessr/fetch_games.py:13-61 | the walk requests every page up to and including the first that does not continue (a failed status, no entries, or no token) |
| FeedFilter.FetchFilteredTokens | geoguessr/fetch_games.py:64 | the result repeats no id and holds exactly the ids collected along the walk |
| FeedFilter.CollectedIffKept | geoguessr/fetch_games.py:13-61 | an id is collected exactly when some walked page that is read holds it |
| FeedFilter.ResultIsKeptIds | geoguessr/fetch_games.py:8-64 | the result holds exactly the ids of admitted items on the read pages of the walk |
| FeedFilter.LaterPagesIgnored | geoguessr/fetch_games.py:21-27 | once the walk has stopped, further responses change neither the ids nor the number of pages requested |
| FeedFilter.ContinuedPagesCollected | geoguessr/fetch_games.py:56-61 | an id on any page of an unbroken run of continuing pages is collected, whatever follows |
| FeedFilter.FailureKeepsEarlierIds | geoguessr/fetch_games.py:21-23 | a failed status ends the walk, but the ids already gathered are still returned |
| TeamNormalize.MyTeam | geoguessr/fetch_games.py:81-83 | my team is the first team that lists me, and there is none exactly when no team does |
| TeamNormalize.EnemyTeam | geoguessr/fetch_games.py:84 | the enemy is the first team with a different id, and there is none exactly when every team has my team's id |
| TeamNormalize.ScoreRules | geoguessr/fetch_games.py:98-106 | a missing score is computed from the distance on both sides; a score of 0 stays 0 for my guesses but is recomputed for the enemy's; any other score is kept |
| TeamNormalize.EnemyBest | geoguessr/fetch_games.py:95-99 | the enemy-best table has an entry for exactly the rounds some enemy guess names, each non-negative |
| TeamNormalize.EnemyBestIsMax | geoguessr/fetch_games.py:95-99 | the enemy's best score for a round is non-negative, at least every enemy score in that round, either 0 or one of them, and 0 when nobody guessed the round |
| TeamNormalize.OwnGuess | geoguessr/fetch_games.py:104-121 | a guess is stored with its round number, score (recomputed when missing), distance and coordinates, and with its time since the round started and the round's country, read from round `roundNumber - 1` (from the end for a negative index); a round index outside the list raises |
| TeamNormalize.OwnGuesses | geoguessr/fetch_games.py:104-121 | a player's guesses convert one for one, and fail exactly when one of them names a missing round |
| TeamNormalize.OwnPlayersFail | geoguessr/fetch_games.py:104-121 | converting my team's players fails exactly when some guess names a round outside the round list (negative positions count from the end, as Python indexing does) |
| TeamNormalize.OwnPlayers | geoguessr/fetch_games.py:102-133 | each player's entry keeps their id and converted guesses, with score equal to the sum of those guesses; it fails exactly when some guess fails |
| TeamNormalize.TeamTotalsOfGuesses | geoguessr/fetch_games.py:130-132 | the team's score total is the sum over all its guesses, and its round total is their number |
| TeamNormalize.LastOf | geoguessr/fetch_games.py:133 | the entry stored under an id is the last player listed with it, and there is none exactly when nobody has the id |
| TeamNormalize.PlayerDict | geoguessr/fetch_games.py:133 | `player_stats[id] = p_stats`: the keys are the distinct ids in first-seen order, and each key holds the last player listed under it |
| TeamNormalize.PlayerEntries | geoguessr/fetch_games.py:133 | the stored players have distinct ids, in first-seen order, each being the last player listed under that id |
| TeamNormalize.AddCountry | geoguessr/fetch_games.py:126-128 | adding a country to a round's set leaves exactly the old members plus the new one |
| TeamNormalize.CountriesAt | geoguessr/fetch_games.py:126-128 | a round's country set holds, without repeats, exactly the non-empty countries of the guesses for that round |
| TeamNormalize.GuessRoundsScores | geoguessr/fetch_games.py:123-128 | a round appears in the table exactly when some guess names it, keys in first-guess order; its row holds the sum of that round's distances and scores, its country set, and health change 0 |
| TeamNormalize.GuessRoundsOrder | geoguessr/fetch_games.py:123 | `setdefault` keeps first-guess order: the table's round order is the guesses' round numbers without repeats |
| TeamNormalize.GuessRoundsTotals | geoguessr/fetch_games.py:123-128 | a round's row is its summed distance, summed score and country set; a round nobody guessed sums to zero with no countries |
| TeamNormalize.AddGuessRoundAt | geoguessr/fetch_games.py:123-128 | one guess creates or updates only its own round's row, adding its distance and score and its non-empty country |
| TeamNormalize.LastDelta | geoguessr/fetch_games.py:136-141 | a round has no health delta exactly when none of its results has both health values |
| TeamNormalize.DeltaRoundNumbers | geoguessr/fetch_games.py:136-141 | the rounds the health pass touches are exactly those with a complete result |
| TeamNormalize.HealthRoundsEffect | geoguessr/fetch_games.py:136-141 | the health pass adds exactly the rounds with a complete result, and sets (not adds) each such round's change to its last complete delta; other rows are unchanged |
| TeamNormalize.HealthRoundsOrder | geoguessr/fetch_games.py:140 | rounds first created by the health pass come after the guessed rounds, in result order, without repeats |
| TeamNormalize.RoundStats | geoguessr/fetch_games.py:151-160 | one row per round entry, in table order, carrying its number, distance, score, health change and countries, and the enemy's best score for the round (0 when absent) |
| TeamNormalize.NormalizeGame | geoguessr/fetch_games.py:73-168 | a non-200 status and a game I am not in are skipped; a stored game carries its id and my team's id, contains me and my teammate, and has distinct players |
| TeamNormalize.Record | geoguessr/fetch_games.py:162-168 | the stored record carries the game id and team id; its players are the distinct ids in first-seen order, each with the last stats stored under it |
| TeamNormalize.RecordTotals | geoguessr/fetch_games.py:130-149 | the record's totals are the team's score and round totals, the summed health deltas, and the score difference against the enemy's total |
| TeamNormalize.OkValues | geoguessr/fetch_games.py:70-171 | the loop keeps exactly the successful results, in input order, one per succeeding input |
| TeamNormalize.OkIndices | geoguessr/fetch_games.py:70-171 | the succeeding positions, strictly increasing, and every succeeding position among them |
| TeamNormalize.FetchTeamDuels | geoguessr/fetch_games.py:66-173 | the stored games are, in request order, exactly the normalisations of the responses that normalise |
| TeamNormalize.StoredScores | geoguessr/fetch_games.py:105-111 | a player's stored score is the sum of their guess scores after the missing ones are computed |
| TeamNormalize.StoredTotals | geoguessr/fetch_games.py:130-132 | the team's stored score is the sum over all its players' guesses, and its rounds are the number of those guesses |
| TeamNormalize.NormalizedTotals | geoguessr/fetch_games.py:130-149 | for a stored game: total score is my team's guess total, total rounds is its guess count, the score difference is present and equals total score minus the enemy's total, and the health change is the sum of complete deltas |
| TeamNormalize.NormalizedRounds | geoguessr/fetch_games.py:123-160 | round rows come in guessed-round order followed by health-only rounds, without repeats; each row is that round's summed own distance and score, its last complete health delta (0 without one), its country set and the enemy's best score |
| TeamNormalize.NormalizedRoundCoverage | geoguessr/fetch_games.py:123-160 | a round has a row exactly when one of my team's guesses names it or it has a complete health result |
| TeamNormalize.NormalizedPlayers | geoguessr/fetch_games.py:102-133 | the stored players are the distinct ids of my team in first-seen order, each with the converted guesses of the last player listed under it and their summed score and distance |
| TeamNormalize.RecordRounds | geoguessr/fetch_games.py:151-160 | the record's round rows: guessed-round order then health-only rounds, each row equal to the expected totals, delta, countries and enemy best for its round |
| TeamNormalize.SkipReasons | geoguessr/fetch_games.py:84-107 | a game is skipped for a missing teammate, a missing enemy team, or an out-of-range round exactly under those conditions, in that order of checks |
| Cleanup.FirstIdle | cleanup_anomalous_games.py:36-45 | no player is named exactly when all have rounds; otherwise it is the first idle player |
| Cleanup.Verdict | cleanup_anomalous_games.py:26-48 | a game is kept exactly when it is standard; a wrong player count is reported before any idle player |
| Cleanup.CleanupGames | cleanup_anomalous_games.py:21-48 | every game is either kept or removed, never both, and every kept game is standard |
| Cleanup.ValidAreStandard | cleanup_anomalous_games.py:21-48 | the kept games are exactly the standard ones, in input order |
| Cleanup.RemovedAreTheRest | cleanup_anomalous_games.py:21-48 | the removal records are the other games, in input order, each with its id, verdict and player list |
| Cleanup.CleanupIdempotent | cleanup_anomalous_games.py:21-48 | cleaning an already cleaned list removes nothing |
| Cleanup.StandardKept | cleanup_anomalous_games.py:21-48 | a list of standard games passes through unchanged |
| Cleanup.FirstIdleNamed | cleanup_anomalous_games.py:37-45 | when both players are idle, only the first is named (the loop breaks) |
| Anomalies.IdleAnomalies | geoguessr/find_anomalous_games.py:36-39 | one zero-rounds anomaly per idle player, in player order, naming that player |
| Anomalies.GameChecks | geoguessr/find_anomalous_games.py:41-47 | at most one wrong-count anomaly (first, with the player count, exactly when it is not two) and one missing-id anomaly (exactly when my id is given and absent) |
| Anomalies.GameAnomalies | geoguessr/find_anomalous_games.py:33-47 | a game's anomalies are its idle-player anomalies in player order, followed by the wrong-count and missing-id checks |
| Anomalies.ReportedIff | geoguessr/find_anomalous_games.py:33-49 | a game is reported exactly when some player is idle, the count is not two, or my id is given and absent |
| Anomalies.CleanupRemovedAreReported | geoguessr/find_anomalous_games.py:33-49 | every game the cleanup removes is reported as anomalous |
| Anomalies.StandardGameCanBeReported | geoguessr/find_anomalous_games.py:45-47 | the converse fails: a standard game missing my id is reported with just that anomaly |
| Anomalies.RoundsPerPlayer | geoguessr/find_anomalous_games.py:54 | each player is listed with their number of rounds |
| Anomalies.EntriesOfDict | geoguessr/find_anomalous_games.py:27-28 | with distinct ids, a game adds one to a player's game count exactly when the player is in it |
| Anomalies.GamesOfCountsGames | geoguessr/find_anomalous_games.py:26-30 | a player's game count is the number of games that list them |
| Anomalies.CountPlayers | geoguessr/find_anomalous_games.py:27-30 | a game adds each player's entry to the game count and their rounds to the round count, and adds no other ids |
| Anomalies.CountGames | geoguessr/find_anomalous_games.py:22-30 | over all games, each player's game count is the games listing them and their round count is the summed rounds; only seen players are present |
| Anomalies.CountGamesOrder | geoguessr/find_anomalous_games.py:22-28 | the count table lists the ids in the order they are first seen over the games' player dicts |
| Anomalies.ScanGames | geoguessr/find_anomalous_games.py:22-56 | after the scan, game and round counts are the per-player totals over all games, and reports are in strictly increasing game order |
| Anomalies.ReportGames | geoguessr/find_anomalous_games.py:49-56 | the reports name positions within the input, in strictly increasing order |
| Anomalies.ScanStep | geoguessr/find_anomalous_games.py:49-56 | one more game appends its report exactly when it has anomalies |
| Anomalies.ReportsMatchGames | geoguessr/find_anomalous_games.py:49-56 | every report names an anomalous game with its own id, index, player ids in dict order, rounds per player and anomalies |
| Anomalies.AnomalousGamesReported | geoguessr/find_anomalous_games.py:49-56 | every anomalous game is reported |
| Anomalies.SortedPlayers | geoguessr/find_anomalous_games.py:64 | the ranking is a permutation of the count table, by non-increasing game count |
| Anomalies.LowGamePlayers | geoguessr/find_anomalous_games.py:79 | the low list keeps exactly the ranked players with at most five games, in ranked order |
| Anomalies.FindAnomalousGames | geoguessr/find_anomalous_games.py:11-103 | returns the reports and `player_game_counts`: each report is of an anomalous game with its id, index, players, rounds per player and anomalies, in game order, and every anomalous game is reported; the count table maps each id to the number of entries it has, with its keys in first-seen order |
| Anomalies.RankedCounts | geoguessr/find_anomalous_games.py:64-79 | the ranking of the returned count table lists every seen player once, with their game count, and the low list exactly those seen in five games or fewer |

## Left out

- Network access, the `time.sleep` pauses, `print` output, file loading and saving, and the cleanup's backup copy are not modelled. Responses and stored games are inputs, and results are return values.
- The reverse geocoder (`reverse_geocoder.search`) and the point formula `calculate_score` are function parameters. Their behaviour is not modelled. `get_country` (process_stats.py:5-7) is never called and is left out.
- `parse_time` is not modelled. Timestamps are seconds as `real`, and a round time is their difference.
- Floating-point rounding is not modelled. Averages and rates are exact `real` division.
- `str.lower` is modelled on ASCII letters only. Unicode case mapping is left out.
- `list(set(...))` has no defined order in Python. The model takes first-occurrence order, and the contracts only speak of membership and absence of repeats. The same holds for a round's `countries` set.
- The feed is a finite sequence of responses. A feed that never stops handing out tokens is not modelled.
- Malformed JSON values are not modelled: wrong types, missing required keys (KeyError), or a non-dict payload. The one exception is an unparsable feed payload, which the source catches itself. A required field is assumed present.
- The default ids `'unknown'` and `f'unknown_{i}'` (cleanup_anomalous_games.py:22, find_anomalous_games.py:23) are not modelled, because every stored game carries a `gameId`.
- The `except Exception` of `fetch_team_duels` is modelled only for the failures the model can raise: a round index out of range and a missing enemy team. Other failures are not modelled.
- The Flask/SQL layers (`backend/`, `geodash/`), `queries.js`, `main.py` and the test files are not part of this model.
- Ranking.SortDesc: states a permutation in non-increasing order, but not that equal keys keep their input order, which Python's stable `sorted` guarantees.
- TeamDuels.Report: the row list is stated as a ranked permutation of the bucket rows; tie order is not stated.
- SoloDuels.DuelReportOf: the same as TeamDuels.Report.
- LegacyTeamDuels.LegacyReportOf: the same as TeamDuels.Report.
- TeamDuels.ThreePlayerGameIsCounted: the test at tests/test_process_stats.py:185-193 expects a three-player game to be skipped (`total_games == 0`). The code reads only the first two players and counts the game. The model follows the code, and this lemma states what the code does.
- TeamDuels.MissingTeammateGuessFaults: when the first player scored 0 and the second did not guess, `r2["lat"]` (process_stats.py:139) is read from `None`, and the run fails. The model returns `Err(NoGuessToGeocode)` for this case rather than a corrected behaviour.
- TeamDuels.CreditTime: its own contract states only which players enter the timing table; the per-player time and count are stated by TeamDuels.CreditTimeValues.
- PairRounds.CreditRound: its own contract states the key sets and the credit; the per-player round, score and distance totals are stated by PairRounds.CreditRoundValues.
- PairRounds.AddCountryRound: its own contract states the team lists and key sets; the per-player score and distance lists and 5k counts are stated by PairRounds.AddCountryRoundValues.
- TeamDuels.GameStep: its own contract states the counters and the failure conditions; the bucket round counts are stated by TeamDuels.GameStepBuckets and the content a round adds by TeamDuels.RoundBucket. Player totals after a whole game are not stated in closed form.
- TeamDuels.FoldGames: its own contract states the counters; the bucket round counts are stated by TeamDuels.FoldBuckets. Bucket score lists, player totals and timing after a whole fold are not stated in closed form over the games.
- TeamDuels.Overall: the per-player averages are stated by TeamDuels.OverallPlayer.
- SoloDuels.DuelGameStep: the bucket counts and the score, 5k and time totals after a game are stated by SoloDuels.DuelRoundsUpToBuckets and SoloDuels.DuelRoundsUpToTotals. The distance total after a whole game is not stated in closed form.
- SoloDuels.FoldDuels: the bucket round counts and the score, 5k and time totals are stated by SoloDuels.FoldDuelsSums. The distance total and the bucket lists after a whole fold are not stated in closed form.
- LegacyTeamDuels.LegacyGameStep: the bucket round counts are stated through LegacyTeamDuels.LegacyRoundsUpToBuckets; the remaining columns through LegacyTeamDuels.FoldsAgree, which ties the older fold to the current one.
- LegacyTeamDuels.LegacyFold: the bucket round counts are stated by LegacyTeamDuels.LegacyFoldBuckets, and the remaining columns by LegacyTeamDuels.FoldsAgree.
- LegacyTeamDuels.LegacyOverallOf: the per-player averages are stated by LegacyTeamDuels.LegacyOverallPlayer.
- TeamNormalize.NormalizeGame: its own contract states the skip reasons and the record's identity; the record's players, totals and round rows are stated by TeamNormalize.NormalizedPlayers, TeamNormalize.NormalizedTotals and TeamNormalize.NormalizedRounds.
- Anomalies.FindAnomalousGames: the printed report is not modelled. The ranking it prints and the low-game list are the separate members Anomalies.SortedPlayers and Anomalies.LowGamePlayers, applied to the returned count table. The per-player round totals, which are only printed, appear in Anomalies.CountGames.
