/** Ordering and the top/bottom views of a ranked list: Python's stable
    `sorted(..., key=..., reverse=True)`, a list-comprehension filter, and the
    slices `xs[:n]` and `xs[-n:]`. */
module Ranking {

  import Common

  /** Every earlier element has a key at least as large as every later one. */
  predicate NonIncreasing<T>(s: seq<T>, key: T -> real) {
    forall i, j | 0 <= i < j < |s| :: key(s[i]) >= key(s[j])
  }

  /** Insert `x` after every element whose key is at least `key(x)`; inserting
      after ties is what keeps the sort stable. */
  function InsertDesc<T>(x: T, s: seq<T>, key: T -> real): (r: seq<T>)
    ensures |r| == |s| + 1
    ensures multiset(r) == multiset(s) + multiset{x}
  {
    if |s| == 0 then [x]
    else if key(s[0]) >= key(x) then
      assert s == [s[0]] + s[1..];
      [s[0]] + InsertDesc(x, s[1..], key)
    else
      [x] + s
  }

  /** Every element of `InsertDesc(x, s)` is `x` or an element of `s`. */
  lemma InsertDescFrom<T>(x: T, s: seq<T>, key: T -> real, j: nat)
    requires j < |s| + 1
    ensures InsertDesc(x, s, key)[j] == x || InsertDesc(x, s, key)[j] in s
  {
    var r := InsertDesc(x, s, key);
    assert r[j] in multiset(r);
  }

  lemma {:induction false} InsertKeepsOrder<T>(x: T, s: seq<T>, key: T -> real)
    requires NonIncreasing(s, key)
    ensures NonIncreasing(InsertDesc(x, s, key), key)
    decreases |s|
  {
    if |s| > 0 && key(s[0]) >= key(x) {
      var rest := InsertDesc(x, s[1..], key);
      assert NonIncreasing(s[1..], key);
      InsertKeepsOrder(x, s[1..], key);
      forall j | 0 <= j < |rest|
        ensures key(s[0]) >= key(rest[j])
      {
        InsertDescFrom(x, s[1..], key, j);
        if rest[j] != x {
          var m :| 0 <= m < |s[1..]| && s[1..][m] == rest[j];
          assert s[m + 1] == rest[j];
        }
      }
      var r := [s[0]] + rest;
      forall i, j | 0 <= i < j < |r|
        ensures key(r[i]) >= key(r[j])
      {
        if i > 0 {
          assert r[i] == rest[i - 1] && r[j] == rest[j - 1];
        }
      }
    }
  }

  /** `sorted(s, key=key, reverse=True)`. */
  function SortDesc<T>(s: seq<T>, key: T -> real): (r: seq<T>)
    ensures |r| == |s|
    ensures multiset(r) == multiset(s)
    ensures NonIncreasing(r, key)
  {
    if |s| == 0 then []
    else
      assert s == s[..|s| - 1] + [s[|s| - 1]];
      InsertKeepsOrder(s[|s| - 1], SortDesc(s[..|s| - 1], key), key);
      InsertDesc(s[|s| - 1], SortDesc(s[..|s| - 1], key), key)
  }

  /** `[x for x in s if keep(x)]`: one survivor per matching element.
      `FilterCounts` says how often each element survives and
      `FilterIsSubsequence` that survivors keep their order. */
  function Filter<T>(s: seq<T>, keep: T -> bool): (r: seq<T>)
    ensures |r| == Common.CountWhere(s, keep)
    ensures forall i | 0 <= i < |r| :: keep(r[i])
    ensures forall i | 0 <= i < |s| && keep(s[i]) :: s[i] in r
    ensures forall i | 0 <= i < |r| :: r[i] in s
  {
    if |s| == 0 then []
    else
      var init := Filter(s[..|s| - 1], keep);
      var x := s[|s| - 1];
      assert forall i | 0 <= i < |s| - 1 :: s[i] == s[..|s| - 1][i];
      if keep(x) then init + [x] else init
  }

  /** A kept element survives as often as it occurs; any other not at all. */
  lemma {:induction false} FilterCounts<T>(s: seq<T>, keep: T -> bool, x: T)
    ensures multiset(Filter(s, keep))[x] == if keep(x) then multiset(s)[x] else 0
    decreases |s|
  {
    if |s| > 0 {
      FilterCounts(s[..|s| - 1], keep, x);
      assert s == s[..|s| - 1] + [s[|s| - 1]];
    }
  }

  /** `r` is an order-preserving subsequence of `s` (matched greedily from
      the end, which finds an embedding whenever one exists). */
  predicate Subsequence<T(==)>(r: seq<T>, s: seq<T>)
    decreases |s|
  {
    if |r| == 0 then true
    else if |s| == 0 then false
    else if r[|r| - 1] == s[|s| - 1] then Subsequence(r[..|r| - 1], s[..|s| - 1])
    else Subsequence(r, s[..|s| - 1])
  }

  lemma {:induction false} FilterIsSubsequence<T>(s: seq<T>, keep: T -> bool)
    ensures Subsequence(Filter(s, keep), s)
    decreases |s|
  {
    if |s| > 0 {
      var init := Filter(s[..|s| - 1], keep);
      FilterIsSubsequence(s[..|s| - 1], keep);
      var x := s[|s| - 1];
      if keep(x) {
        assert (init + [x])[..|init|] == init;
      } else if |init| > 0 {
        assert keep(init[|init| - 1]);
        assert init[|init| - 1] != x;
      }
    }
  }

  /** Filtering a ranked list keeps it ranked. */
  lemma {:induction false} FilterKeepsOrder<T>(s: seq<T>, keep: T -> bool, key: T -> real)
    requires NonIncreasing(s, key)
    ensures NonIncreasing(Filter(s, keep), key)
    decreases |s|
  {
    if |s| > 0 {
      var x := s[|s| - 1];
      var init := Filter(s[..|s| - 1], keep);
      assert NonIncreasing(s[..|s| - 1], key);
      FilterKeepsOrder(s[..|s| - 1], keep, key);
      if keep(x) {
        var r := init + [x];
        forall i, j | 0 <= i < j < |r|
          ensures key(r[i]) >= key(r[j])
        {
          if j == |r| - 1 {
            assert r[i] in s[..|s| - 1];
            var m :| 0 <= m < |s| - 1 && s[..|s| - 1][m] == r[i];
            assert s[m] == r[i];
          } else {
            assert r[i] == init[i] && r[j] == init[j];
          }
        }
      }
    }
  }

  function MinNat(a: nat, b: nat): nat { if a <= b then a else b }

  /** `s[:n]`. */
  function Top<T>(s: seq<T>, n: nat): (r: seq<T>)
    ensures |r| == MinNat(n, |s|)
    ensures r == s[..|r|]
  {
    s[..MinNat(n, |s|)]
  }

  /** `s[-n:]` for `n > 0` (the whole list when it is shorter than `n`). */
  function Bottom<T>(s: seq<T>, n: nat): (r: seq<T>)
    ensures |r| == MinNat(n, |s|)
    ensures r == s[|s| - |r|..]
  {
    s[|s| - MinNat(n, |s|)..]
  }

  /** On a ranked list the top view dominates everything after it and the
      bottom view is dominated by everything before it. */
  lemma ViewsAreExtremes<T>(s: seq<T>, key: T -> real, n: nat)
    requires NonIncreasing(s, key)
    ensures forall i, j | 0 <= i < |Top(s, n)| <= j < |s| :: key(Top(s, n)[i]) >= key(s[j])
    ensures forall i, j | 0 <= j < |s| - |Bottom(s, n)| && 0 <= i < |Bottom(s, n)| ::
              key(s[j]) >= key(Bottom(s, n)[i])
  {
    var b := Bottom(s, n);
    forall i, j | 0 <= j < |s| - |b| && 0 <= i < |b|
      ensures key(s[j]) >= key(b[i])
    {
      assert b[i] == s[|s| - |b| + i];
    }
  }

  /** The views of the filtered ranking: every element passes the filter
      and the filtered list keeps the ranked order. */
  lemma RankedViews<T>(ranked: seq<T>, keep: T -> bool, key: T -> real, n: nat)
    requires NonIncreasing(ranked, key)
    ensures var e := Filter(ranked, keep);
      && NonIncreasing(e, key)
      && Subsequence(e, ranked)
      && (forall i | 0 <= i < |Top(e, n)| :: keep(Top(e, n)[i]))
      && (forall i | 0 <= i < |Bottom(e, n)| :: keep(Bottom(e, n)[i]))
  {
    var e := Filter(ranked, keep);
    FilterIsSubsequence(ranked, keep);
    FilterKeepsOrder(ranked, keep, key);
    var t := Top(e, n);
    var b := Bottom(e, n);
    assert forall i | 0 <= i < |t| :: t[i] == e[i];
    assert forall i | 0 <= i < |b| :: b[i] == e[|e| - |b| + i];
  }
}
