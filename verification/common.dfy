/** Small shared vocabulary: optional values, results, the zero-denominator
    ratio convention used by every average and rate, ASCII lower-casing of
    country codes, sums, and the "get or insert default" counters that stand
    in for Python's defaultdict. */
module Common {

  datatype Option<+T> = None | Some(value: T) {
    function GetOr(default: T): T {
      match this
      case Some(v) => v
      case None => default
    }
  }

  datatype Result<+T, +E> = Ok(value: T) | Err(error: E)

  /** Python truthiness of an optional string: present and non-empty. */
  predicate Truthy(o: Option<string>) {
    o.Some? && o.value != ""
  }

  /** `a or b` on optional strings: the first one that is truthy wins. */
  function OrElse(a: Option<string>, b: Option<string>): (r: Option<string>)
    ensures Truthy(a) ==> r == a
    ensures !Truthy(a) ==> r == b
  {
    if Truthy(a) then a else b
  }

  /** `num / den if den else 0`: every average and rate of the report. */
  function Ratio(num: real, den: int): (r: real)
    ensures den == 0 ==> r == 0.0
    ensures den != 0 ==> r * (den as real) == num
    ensures 0 < den && 0.0 <= num <= den as real ==> 0.0 <= r <= 1.0
    ensures 0 < den && 0.0 < num ==> 0.0 < r
  {
    if den == 0 then 0.0 else num / (den as real)
  }

  function Max(a: int, b: int): int { if a >= b then a else b }

  function MinReal(a: real, b: real): real { if a <= b then a else b }

  function LowerChar(c: char): char {
    if 'A' <= c <= 'Z' then (c as int + 32) as char else c
  }

  /** `str.lower()`, restricted to ASCII letters. */
  function Lower(s: string): (r: string)
    ensures |r| == |s|
    ensures forall i | 0 <= i < |s| :: r[i] == LowerChar(s[i])
  {
    if |s| == 0 then [] else Lower(s[..|s| - 1]) + [LowerChar(s[|s| - 1])]
  }

  lemma {:induction false} LowerIdempotent(s: string)
    ensures Lower(Lower(s)) == Lower(s)
  {
    var l := Lower(s);
    var ll := Lower(l);
    assert |ll| == |l|;
    forall i | 0 <= i < |l|
      ensures ll[i] == l[i]
    {
      assert l[i] == LowerChar(s[i]);
    }
  }

  function SumInts(s: seq<int>): int {
    if |s| == 0 then 0 else SumInts(s[..|s| - 1]) + s[|s| - 1]
  }

  function SumReals(s: seq<real>): real {
    if |s| == 0 then 0.0 else SumReals(s[..|s| - 1]) + s[|s| - 1]
  }

  /** Number of strictly positive entries. */
  function CountPositive(s: seq<int>): (n: nat)
    ensures n <= |s|
  {
    if |s| == 0 then 0
    else CountPositive(s[..|s| - 1]) + (if s[|s| - 1] > 0 then 1 else 0)
  }

  /** Number of elements satisfying `p`. */
  function CountWhere<T>(s: seq<T>, p: T -> bool): (n: nat)
    ensures n <= |s|
  {
    if |s| == 0 then 0
    else CountWhere(s[..|s| - 1], p) + (if p(s[|s| - 1]) then 1 else 0)
  }

  lemma CountWhereAppend<T>(s: seq<T>, x: T, p: T -> bool)
    ensures CountWhere(s + [x], p) == CountWhere(s, p) + (if p(x) then 1 else 0)
  {
    assert (s + [x])[..|s|] == s;
  }

  /** Something is counted exactly when some element satisfies `p`. */
  lemma {:induction false} CountWherePositive<T>(s: seq<T>, p: T -> bool)
    ensures CountWhere(s, p) > 0 <==> exists i | 0 <= i < |s| :: p(s[i])
    decreases |s|
  {
    if |s| > 0 {
      var init := s[..|s| - 1];
      CountWherePositive(init, p);
      assert forall i | 0 <= i < |init| :: init[i] == s[i];
    }
  }

  lemma CountPositiveAppend(s: seq<int>, x: int)
    ensures CountPositive(s + [x]) == CountPositive(s) + (if x > 0 then 1 else 0)
  {
    assert (s + [x])[..|s|] == s;
  }

  /** `mean` averages `count` observations summing to `total`: scaled back
      by the count it gives the total. With no observations the total is 0. */
  predicate Averages(mean: real, count: int, total: real) {
    mean * (count as real) == total
  }

  /** Mean of integer observations, 0 when there are none. */
  function MeanInts(s: seq<int>): (m: real)
    ensures Averages(m, |s|, SumInts(s) as real)
    ensures |s| == 0 ==> m == 0.0
  {
    Ratio(SumInts(s) as real, |s|)
  }

  /** Mean of real observations, 0 when there are none. */
  function MeanReals(s: seq<real>): (m: real)
    ensures Averages(m, |s|, SumReals(s))
    ensures |s| == 0 ==> m == 0.0
  {
    Ratio(SumReals(s), |s|)
  }

  /** `{p: num[p] / den[p] if den[p] else 0 for p in num}`, with `den` a
      defaultdict of counts. */
  function PerKey<K>(num: map<K, real>, den: map<K, nat>): (r: map<K, real>)
    ensures r.Keys == num.Keys
    ensures forall p | p in r && GetNat(den, p) > 0 :: Averages(r[p], GetNat(den, p), num[p])
    ensures forall p | p in r && GetNat(den, p) == 0 :: r[p] == 0.0
  {
    map p | p in num :: Ratio(num[p], GetNat(den, p))
  }

  // defaultdict(int) / defaultdict(float) / defaultdict(list) updates

  function Get<K>(m: map<K, int>, k: K): int {
    if k in m then m[k] else 0
  }

  function GetNat<K>(m: map<K, nat>, k: K): nat {
    if k in m then m[k] else 0
  }

  function GetReal<K>(m: map<K, real>, k: K): real {
    if k in m then m[k] else 0.0
  }

  function GetSeq<K, T>(m: map<K, seq<T>>, k: K): seq<T> {
    if k in m then m[k] else []
  }

  function AddNat<K>(m: map<K, nat>, k: K, d: nat): (r: map<K, nat>)
    ensures r.Keys == m.Keys + {k}
    ensures r[k] == GetNat(m, k) + d
    ensures forall j | j in m && j != k :: r[j] == m[j]
  {
    m[k := GetNat(m, k) + d]
  }

  function AddInt<K>(m: map<K, int>, k: K, d: int): (r: map<K, int>)
    ensures r.Keys == m.Keys + {k}
    ensures r[k] == Get(m, k) + d
    ensures forall j | j in m && j != k :: r[j] == m[j]
  {
    m[k := Get(m, k) + d]
  }

  function AddReal<K>(m: map<K, real>, k: K, d: real): (r: map<K, real>)
    ensures r.Keys == m.Keys + {k}
    ensures r[k] == GetReal(m, k) + d
    ensures forall j | j in m && j != k :: r[j] == m[j]
  {
    m[k := GetReal(m, k) + d]
  }

  function AppendTo<K, T>(m: map<K, seq<T>>, k: K, x: T): (r: map<K, seq<T>>)
    ensures r.Keys == m.Keys + {k}
    ensures r[k] == GetSeq(m, k) + [x]
    ensures forall j | j in m && j != k :: r[j] == m[j]
  {
    m[k := GetSeq(m, k) + [x]]
  }

  // Two updates in a row, as a round does for its two players.

  lemma AddNatTwice<K(!new)>(m: map<K, nat>, k1: K, d1: nat, k2: K, d2: nat)
    ensures forall j :: GetNat(AddNat(AddNat(m, k1, d1), k2, d2), j) ==
              GetNat(m, j) + (if j == k1 then d1 else 0) + (if j == k2 then d2 else 0)
  {
    forall j
      ensures GetNat(AddNat(AddNat(m, k1, d1), k2, d2), j) ==
              GetNat(m, j) + (if j == k1 then d1 else 0) + (if j == k2 then d2 else 0)
    {
      var m1 := AddNat(m, k1, d1);
      assert GetNat(m1, j) == GetNat(m, j) + (if j == k1 then d1 else 0);
    }
  }

  lemma AddIntTwice<K(!new)>(m: map<K, int>, k1: K, d1: int, k2: K, d2: int)
    ensures forall j :: Get(AddInt(AddInt(m, k1, d1), k2, d2), j) ==
              Get(m, j) + (if j == k1 then d1 else 0) + (if j == k2 then d2 else 0)
  {
    forall j
      ensures Get(AddInt(AddInt(m, k1, d1), k2, d2), j) ==
              Get(m, j) + (if j == k1 then d1 else 0) + (if j == k2 then d2 else 0)
    {
      var m1 := AddInt(m, k1, d1);
      assert Get(m1, j) == Get(m, j) + (if j == k1 then d1 else 0);
    }
  }

  lemma AddRealTwice<K(!new)>(m: map<K, real>, k1: K, d1: real, k2: K, d2: real)
    ensures forall j :: GetReal(AddReal(AddReal(m, k1, d1), k2, d2), j) ==
              GetReal(m, j) + (if j == k1 then d1 else 0.0) + (if j == k2 then d2 else 0.0)
  {
    forall j
      ensures GetReal(AddReal(AddReal(m, k1, d1), k2, d2), j) ==
              GetReal(m, j) + (if j == k1 then d1 else 0.0) + (if j == k2 then d2 else 0.0)
    {
      var m1 := AddReal(m, k1, d1);
      assert GetReal(m1, j) == GetReal(m, j) + (if j == k1 then d1 else 0.0);
    }
  }

  lemma AppendToTwice<K(!new), T>(m: map<K, seq<T>>, k1: K, x1: T, k2: K, x2: T)
    ensures forall j :: GetSeq(AppendTo(AppendTo(m, k1, x1), k2, x2), j) ==
              GetSeq(m, j) + (if j == k1 then [x1] else []) + (if j == k2 then [x2] else [])
  {
    forall j
      ensures GetSeq(AppendTo(AppendTo(m, k1, x1), k2, x2), j) ==
              GetSeq(m, j) + (if j == k1 then [x1] else []) + (if j == k2 then [x2] else [])
    {
      var m1 := AppendTo(m, k1, x1);
      assert GetSeq(m1, j) == GetSeq(m, j) + (if j == k1 then [x1] else []);
    }
  }

  /** Python's `s[i]` for an `int` index: negative indices count from the end;
      `None` stands for the IndexError. */
  function PyIndex<T>(s: seq<T>, i: int): (r: Option<T>)
    ensures 0 <= i < |s| ==> r == Some(s[i])
    ensures -|s| <= i < 0 ==> r == Some(s[|s| + i])
    ensures r.None? <==> (i >= |s| || i < -|s|)
  {
    if 0 <= i < |s| then Some(s[i])
    else if -|s| <= i < 0 then Some(s[|s| + i])
    else None
  }

  /** First-occurrence de-duplication, the model of `list(set(xs))`. */
  function Dedup<T(==, !new)>(xs: seq<T>): (r: seq<T>)
    ensures forall x :: x in r <==> x in xs
    ensures forall i, j | 0 <= i < j < |r| :: r[i] != r[j]
    ensures |r| <= |xs|
  {
    if |xs| == 0 then []
    else
      var d := Dedup(xs[..|xs| - 1]);
      var x := xs[|xs| - 1];
      assert forall y :: y in xs <==> y in xs[..|xs| - 1] || y == x;
      if x in d then d else d + [x]
  }

  /** `Dedup` of a sequence extended by one element. */
  lemma DedupSnoc<T(!new)>(xs: seq<T>, x: T)
    ensures Dedup(xs + [x]) == if x in Dedup(xs) then Dedup(xs) else Dedup(xs) + [x]
  {
    assert (xs + [x])[..|xs|] == xs;
  }
}
