/** The batched hit-rate pass shared by both aggregation entry points
    (geoguessr/process_stats.py, lines 169-180 and 365-376). During the round
    fold every country round that has a guess queues the guess coordinate with
    the country bucket it belongs to. Afterwards each distinct coordinate is
    reverse-geocoded once and the answer is fanned back out to every bucket
    that queued that coordinate: the bucket's guess count goes up by one, and
    its correct count too when the geocoded country matches the bucket's.

    The geocoder is a parameter. The contract of `Resolve` is the main
    result: batching by distinct coordinate gives exactly the tallies that
    geocoding every queued guess on its own would give. */
module HitRate {
  import opened Common

  datatype Coord = Coord(lat: real, lng: real)

  /** One queued guess: the coordinate to geocode and the lower-cased
      country code of the bucket that queued it. */
  datatype Queued = Queued(coord: Coord, country: string)

  /** The `correct_guesses` / `total_guesses` pair of a country bucket. */
  datatype HitTally = HitTally(correct: nat, total: nat)

  type Geocoder = Coord -> string

  function Plus(a: HitTally, b: HitTally): HitTally {
    HitTally(a.correct + b.correct, a.total + b.total)
  }

  lemma PlusLaws(a: HitTally, b: HitTally, c: HitTally)
    ensures Plus(a, HitTally(0, 0)) == a
    ensures Plus(HitTally(0, 0), a) == a
    ensures Plus(Plus(a, b), c) == Plus(a, Plus(b, c))
    ensures Plus(Plus(a, b), c) == Plus(Plus(a, c), b)
  {
  }

  function TallyOf(t: map<string, HitTally>, k: string): HitTally {
    if k in t then t[k] else HitTally(0, 0)
  }

  /** `all_guess_coords`. */
  function Coords(q: seq<Queued>): (r: seq<Coord>)
    ensures |r| == |q|
    ensures forall i | 0 <= i < |q| :: r[i] == q[i].coord
  {
    if |q| == 0 then [] else Coords(q[..|q| - 1]) + [q[|q| - 1].coord]
  }

  /** `guess_map`: each coordinate to the countries that queued it, in order. */
  function GuessMap(q: seq<Queued>): (m: map<Coord, seq<string>>)
    ensures forall c :: c in m <==> c in Coords(q)
  {
    if |q| == 0 then map[]
    else
      var init := q[..|q| - 1];
      var e := q[|q| - 1];
      assert Coords(q) == Coords(init) + [e.coord];
      GuessMap(init)[e.coord := GetSeq(GuessMap(init), e.coord) + [e.country]]
  }

  /** `unique_coords`: the coordinates handed to the geocoder, each once. */
  function Batch(q: seq<Queued>): (r: seq<Coord>)
    ensures forall i, j | 0 <= i < j < |r| :: r[i] != r[j]
    ensures forall i | 0 <= i < |q| :: q[i].coord in r
    ensures forall i | 0 <= i < |r| :: r[i] in Coords(q)
    ensures |r| <= |q|
  {
    Dedup(Coords(q))
  }

  /** The geocoded country code matches the bucket's (case-insensitively). */
  lemma CountCountryAppend(q: seq<Queued>, e: Queued, k: string)
    ensures CountCountry(q + [e], k) == CountCountry(q, k) + (if e.country == k then 1 else 0)
  {
    assert (q + [e])[..|q|] == q;
  }

  predicate Agrees(guess: string, country: string) {
    guess == Lower(country)
  }

  /** One guess landing in bucket `country` with geocoded country `guess`. */
  function Record(t: map<string, HitTally>, country: string, guess: string): (r: map<string, HitTally>)
    ensures r.Keys == t.Keys + {country}
  {
    var prev := TallyOf(t, country);
    t[country := HitTally(prev.correct + (if Agrees(guess, country) then 1 else 0), prev.total + 1)]
  }

  /** The inner loop over `guess_map[coord]` for one geocoded coordinate. */
  function FanEntries(t: map<string, HitTally>, countries: seq<string>, guess: string): map<string, HitTally> {
    if |countries| == 0 then t
    else Record(FanEntries(t, countries[..|countries| - 1], guess), countries[|countries| - 1], guess)
  }

  /** The outer loop over the batch, in batch order. */
  function FanOut(t: map<string, HitTally>, batch: seq<Coord>, gm: map<Coord, seq<string>>, geo: Geocoder)
    : map<string, HitTally>
  {
    if |batch| == 0 then t
    else
      var c := batch[|batch| - 1];
      FanEntries(FanOut(t, batch[..|batch| - 1], gm, geo), GetSeq(gm, c), Lower(geo(c)))
  }

  /** The whole pass: per-country tallies after geocoding the batch.
      Batching by distinct coordinate gives every bucket exactly the tally of
      geocoding each of its queued guesses on its own (`Expected`). */
  function Resolve(q: seq<Queued>, geo: Geocoder): (r: map<string, HitTally>)
    ensures forall k :: TallyOf(r, k) == Expected(q, geo, k)
  {
    var r := FanOut(map[], Batch(q), GuessMap(q), geo);
    forall k
      ensures TallyOf(r, k) == Expected(q, geo, k)
    {
      FanOutTally(map[], Batch(q), GuessMap(q), geo, k);
      BatchGroupsMatchPerGuess(q, geo, k);
    }
    r
  }

  // ---------------------------------------------------------------------
  // Reference: every queued guess geocoded on its own

  /** Queued guesses for bucket `k`. */
  function CountCountry(q: seq<Queued>, k: string): (n: nat)
    ensures n <= |q|
  {
    if |q| == 0 then 0
    else CountCountry(q[..|q| - 1], k) + (if q[|q| - 1].country == k then 1 else 0)
  }

  function One(country: string, guess: string, k: string): HitTally {
    if country == k then HitTally(if Agrees(guess, country) then 1 else 0, 1) else HitTally(0, 0)
  }

  /** What bucket `k` should hold: one guess per queued entry for `k`, correct
      when that entry's own coordinate geocodes to `k`. */
  function Expected(q: seq<Queued>, geo: Geocoder, k: string): (r: HitTally)
    ensures r.total == CountCountry(q, k)
    ensures r.correct <= r.total
  {
    if |q| == 0 then HitTally(0, 0)
    else
      var e := q[|q| - 1];
      Plus(Expected(q[..|q| - 1], geo, k), One(e.country, Lower(geo(e.coord)), k))
  }

  // ---------------------------------------------------------------------
  // Proof that the batch pass equals the reference

  function EntriesTally(countries: seq<string>, guess: string, k: string): HitTally {
    if |countries| == 0 then HitTally(0, 0)
    else Plus(EntriesTally(countries[..|countries| - 1], guess, k), One(countries[|countries| - 1], guess, k))
  }

  function GroupsTally(batch: seq<Coord>, gm: map<Coord, seq<string>>, geo: Geocoder, k: string): HitTally {
    if |batch| == 0 then HitTally(0, 0)
    else
      var c := batch[|batch| - 1];
      Plus(GroupsTally(batch[..|batch| - 1], gm, geo, k), EntriesTally(GetSeq(gm, c), Lower(geo(c)), k))
  }

  lemma RecordTally(t: map<string, HitTally>, country: string, guess: string, k: string)
    ensures TallyOf(Record(t, country, guess), k) == Plus(TallyOf(t, k), One(country, guess, k))
  {
  }

  lemma {:induction false} FanEntriesTally(t: map<string, HitTally>, countries: seq<string>, guess: string, k: string)
    ensures TallyOf(FanEntries(t, countries, guess), k) == Plus(TallyOf(t, k), EntriesTally(countries, guess, k))
    decreases |countries|
  {
    if |countries| > 0 {
      var init := countries[..|countries| - 1];
      var x := countries[|countries| - 1];
      var f := FanEntries(t, init, guess);
      assert FanEntries(t, countries, guess) == Record(f, x, guess);
      FanEntriesTally(t, init, guess, k);
      RecordTally(f, x, guess, k);
      assert EntriesTally(countries, guess, k) == Plus(EntriesTally(init, guess, k), One(x, guess, k));
      PlusLaws(TallyOf(t, k), EntriesTally(init, guess, k), One(x, guess, k));
    } else {
      PlusLaws(TallyOf(t, k), TallyOf(t, k), TallyOf(t, k));
    }
  }

  lemma {:induction false} FanOutTally(t: map<string, HitTally>, batch: seq<Coord>, gm: map<Coord, seq<string>>,
                                       geo: Geocoder, k: string)
    ensures TallyOf(FanOut(t, batch, gm, geo), k) == Plus(TallyOf(t, k), GroupsTally(batch, gm, geo, k))
    decreases |batch|
  {
    if |batch| > 0 {
      var init := batch[..|batch| - 1];
      var c := batch[|batch| - 1];
      var f := FanOut(t, init, gm, geo);
      assert FanOut(t, batch, gm, geo) == FanEntries(f, GetSeq(gm, c), Lower(geo(c)));
      FanOutTally(t, init, gm, geo, k);
      FanEntriesTally(f, GetSeq(gm, c), Lower(geo(c)), k);
      assert GroupsTally(batch, gm, geo, k)
          == Plus(GroupsTally(init, gm, geo, k), EntriesTally(GetSeq(gm, c), Lower(geo(c)), k));
      PlusLaws(TallyOf(t, k), GroupsTally(init, gm, geo, k), EntriesTally(GetSeq(gm, c), Lower(geo(c)), k));
    } else {
      PlusLaws(TallyOf(t, k), TallyOf(t, k), TallyOf(t, k));
    }
  }

  /** Changing the group of a coordinate outside the batch changes nothing. */
  lemma {:induction false} GroupsTallyFrame(batch: seq<Coord>, gm: map<Coord, seq<string>>, c: Coord,
                                            v: seq<string>, geo: Geocoder, k: string)
    requires c !in batch
    ensures GroupsTally(batch, gm[c := v], geo, k) == GroupsTally(batch, gm, geo, k)
    decreases |batch|
  {
    if |batch| > 0 {
      GroupsTallyFrame(batch[..|batch| - 1], gm, c, v, geo, k);
    }
  }

  /** Appending one country to the group of a coordinate that occurs once in
      the batch adds exactly that country's contribution. */
  lemma GroupsTallyAppend(batch: seq<Coord>, gm: map<Coord, seq<string>>, c: Coord,
                          x: string, geo: Geocoder, k: string)
    requires forall i, j | 0 <= i < j < |batch| :: batch[i] != batch[j]
    requires c in batch
    ensures GroupsTally(batch, gm[c := GetSeq(gm, c) + [x]], geo, k)
         == Plus(GroupsTally(batch, gm, geo, k), One(x, Lower(geo(c)), k))
  {
    var gm2 := gm[c := GetSeq(gm, c) + [x]];
    var p := OnlyAt(batch, c);
    GroupFnAppend(gm, c, x, geo, k);
    SumOverReplace(batch, p, GroupFn(gm, geo, k), GroupFn(gm2, geo, k), c, One(x, Lower(geo(c)), k));
    GroupsTallyIsSum(batch, gm, geo, k);
    GroupsTallyIsSum(batch, gm2, geo, k);
  }

  /** The position of an element of a sequence without repeats: it occurs
      neither before nor after. */
  lemma OnlyAt(batch: seq<Coord>, c: Coord) returns (p: nat)
    requires forall i, j | 0 <= i < j < |batch| :: batch[i] != batch[j]
    requires c in batch
    ensures p < |batch| && batch[p] == c && c !in batch[..p] && c !in batch[p + 1..]
  {
    p :| 0 <= p < |batch| && batch[p] == c;
    assert forall j | 0 <= j < |batch| && j != p :: batch[j] != c;
  }

  /** Appending `x` to the group of `c` changes only that coordinate's tally,
      by `x`'s contribution. */
  lemma GroupFnAppend(gm: map<Coord, seq<string>>, c: Coord, x: string, geo: Geocoder, k: string)
    ensures var f, f2 := GroupFn(gm, geo, k), GroupFn(gm[c := GetSeq(gm, c) + [x]], geo, k);
      && f2(c) == Plus(f(c), One(x, Lower(geo(c)), k))
      && forall u {:trigger f2(u)} | u != c :: f2(u) == f(u)
  {
    var gm2 := gm[c := GetSeq(gm, c) + [x]];
    var s := GetSeq(gm, c);
    assert (s + [x])[..|s|] == s;
    forall u | u != c
      ensures GroupFn(gm2, geo, k)(u) == GroupFn(gm, geo, k)(u)
    {
      assert GetSeq(gm2, u) == GetSeq(gm, u);
    }
  }

  /** The tally of each coordinate's group. */
  function GroupFn(gm: map<Coord, seq<string>>, geo: Geocoder, k: string): Coord -> HitTally {
    (u: Coord) => EntriesTally(GetSeq(gm, u), Lower(geo(u)), k)
  }

  /** Sum of per-coordinate tallies over a batch. */
  function SumOver(batch: seq<Coord>, f: Coord -> HitTally): HitTally {
    if |batch| == 0 then HitTally(0, 0) else Plus(SumOver(batch[..|batch| - 1], f), f(batch[|batch| - 1]))
  }

  /** `GroupsTally` sums each coordinate's group tally. */
  lemma {:induction false} GroupsTallyIsSum(batch: seq<Coord>, gm: map<Coord, seq<string>>, geo: Geocoder, k: string)
    ensures GroupsTally(batch, gm, geo, k) == SumOver(batch, GroupFn(gm, geo, k))
    decreases |batch|
  {
    if |batch| > 0 {
      GroupsTallyIsSum(batch[..|batch| - 1], gm, geo, k);
    }
  }

  /** Changing the summand of one coordinate that occurs once, by `o`,
      changes the sum by `o`. */
  lemma {:induction false} SumOverReplace(batch: seq<Coord>, p: nat, f: Coord -> HitTally, f2: Coord -> HitTally,
                                          c: Coord, o: HitTally)
    requires p < |batch| && batch[p] == c && c !in batch[..p] && c !in batch[p + 1..]
    requires forall u {:trigger f2(u)} | u != c :: f2(u) == f(u)
    requires f2(c) == Plus(f(c), o)
    ensures SumOver(batch, f2) == Plus(SumOver(batch, f), o)
    decreases |batch|
  {
    var init := batch[..|batch| - 1];
    var u := batch[|batch| - 1];
    if p == |batch| - 1 {
      assert init == batch[..p];
      SumOverFrame(init, f, f2, c);
      PlusLaws(SumOver(init, f), f(c), o);
    } else {
      assert init[..p] == batch[..p] && init[p] == c;
      assert u == batch[p + 1..][|batch| - p - 2];
      assert forall j | p < j < |init| :: init[j] == batch[j] && batch[j] == batch[p + 1..][j - p - 1];
      SumOverReplace(init, p, f, f2, c, o);
      PlusLaws(SumOver(init, f), o, f(u));
    }
  }

  /** Summands that agree off `c` give the same sum over a batch without `c`. */
  lemma {:induction false} SumOverFrame(batch: seq<Coord>, f: Coord -> HitTally, f2: Coord -> HitTally, c: Coord)
    requires c !in batch
    requires forall u {:trigger f2(u)} | u != c :: f2(u) == f(u)
    ensures SumOver(batch, f2) == SumOver(batch, f)
    decreases |batch|
  {
    if |batch| > 0 {
      SumOverFrame(batch[..|batch| - 1], f, f2, c);
    }
  }

  /** Queuing one more guess either reuses its coordinate's batch slot or
      appends a fresh one, and appends the guess's country to that
      coordinate's list. */
  lemma BatchStep(q: seq<Queued>)
    requires |q| > 0
    ensures var init, c := q[..|q| - 1], q[|q| - 1].coord;
      Batch(q) == (if c in Batch(init) then Batch(init) else Batch(init) + [c])
      && GuessMap(q) == GuessMap(init)[c := GetSeq(GuessMap(init), c) + [q[|q| - 1].country]]
      && (c !in Batch(init) ==> GetSeq(GuessMap(init), c) == [])
  {
    var init := q[..|q| - 1];
    var xs := Coords(q);
    assert xs[..|xs| - 1] == Coords(init) by {
      assert xs == Coords(init) + [q[|q| - 1].coord];
    }
    assert Batch(q) == Dedup(xs);
  }

  /** A coordinate new to the batch contributes the tally of its one guess. */
  lemma FreshCoordTally(d: seq<Coord>, gm: map<Coord, seq<string>>, c: Coord, country: string, geo: Geocoder, k: string)
    requires c !in d
    requires GetSeq(gm, c) == []
    ensures GroupsTally(d + [c], gm[c := [country]], geo, k)
      == Plus(GroupsTally(d, gm, geo, k), One(country, Lower(geo(c)), k))
  {
    var gm2 := gm[c := [country]];
    var g := Lower(geo(c));
    var o := One(country, g, k);
    assert (d + [c])[..|d|] == d;
    assert GroupsTally(d + [c], gm2, geo, k) == Plus(GroupsTally(d, gm2, geo, k), EntriesTally([country], g, k));
    GroupsTallyFrame(d, gm, c, [country], geo, k);
    assert [country][..0] == [];
    assert EntriesTally([country], g, k) == o;
  }

  lemma {:induction false} BatchGroupsMatchPerGuess(q: seq<Queued>, geo: Geocoder, k: string)
    ensures GroupsTally(Batch(q), GuessMap(q), geo, k) == Expected(q, geo, k)
    decreases |q|
  {
    if |q| > 0 {
      var init := q[..|q| - 1];
      var e := q[|q| - 1];
      var c := e.coord;
      BatchGroupsMatchPerGuess(init, geo, k);
      BatchStep(q);
      var d := Batch(init);
      var gm0 := GuessMap(init);
      if c in d {
        GroupsTallyAppend(d, gm0, c, e.country, geo, k);
      } else {
        FreshCoordTally(d, gm0, c, e.country, geo, k);
      }
    }
  }
}
