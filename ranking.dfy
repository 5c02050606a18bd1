/**
  Descending order as pandas' `sort_values(ascending=False)` and
  `value_counts()` produce it: larger scores first, missing values
  (NaN) last whatever the direction.
 */
module Ranking {

  /** The sort key of one item: a number, or Absent for NaN. */
  datatype Rank = Absent | Score(x: real)

  /** `a` may stand before `b` in descending order. */
  predicate AtLeast(a: Rank, b: Rank) {
    match a
    case Absent => b.Absent?
    case Score(x) => b.Absent? || x >= b.x
  }

  lemma AtLeastTotal(a: Rank, b: Rank)
    ensures AtLeast(a, b) || AtLeast(b, a)
  {
  }

  lemma AtLeastTransitive(a: Rank, b: Rank, c: Rank)
    requires AtLeast(a, b) && AtLeast(b, c)
    ensures AtLeast(a, c)
  {
  }

  predicate SortedDesc<T>(s: seq<T>, rank: T -> Rank) {
    forall i, j :: 0 <= i < j < |s| ==> AtLeast(rank(s[i]), rank(s[j]))
  }

  /** Puts `x` before the first item it ranks at least as high as, so equal items keep their order. */
  function Insert<T>(x: T, s: seq<T>, rank: T -> Rank): (r: seq<T>)
    requires SortedDesc(s, rank)
    ensures SortedDesc(r, rank)
    ensures multiset(r) == multiset(s) + multiset{x}
  {
    if s == [] then [x]
    else if AtLeast(rank(x), rank(s[0])) then
      forall j | 0 <= j < |s| ensures AtLeast(rank(x), rank(s[j])) {
        if j > 0 { AtLeastTransitive(rank(x), rank(s[0]), rank(s[j])); }
      }
      [x] + s
    else
      var tail := Insert(x, s[1..], rank);
      AtLeastTotal(rank(x), rank(s[0]));
      assert s == [s[0]] + s[1..];
      forall j | 0 <= j < |tail| ensures AtLeast(rank(s[0]), rank(tail[j])) {
        assert tail[j] in multiset(tail);
        if tail[j] != x {
          assert tail[j] in multiset(s[1..]);
          var k :| 0 <= k < |s[1..]| && s[1..][k] == tail[j];
          assert s[k + 1] == tail[j];
        }
      }
      [s[0]] + tail
  }

  /** A stable insertion sort into descending order. */
  function SortDesc<T>(s: seq<T>, rank: T -> Rank): (r: seq<T>)
    ensures SortedDesc(r, rank)
    ensures multiset(r) == multiset(s)
    ensures |r| == |s|
  {
    if s == [] then []
    else
      assert s == [s[0]] + s[1..];
      var r := Insert(s[0], SortDesc(s[1..], rank), rank);
      assert |r| == |multiset(r)| == |multiset(s)| == |s|;
      r
  }
}
