/** Ordering samples and reading nearest-rank percentiles off them. */
module Percentile {
  import opened Wrappers

  ghost predicate Ascending(s: seq<int>) {
    forall i, j :: 0 <= i < j < |s| ==> s[i] <= s[j]
  }

  /** Where x goes in an ascending list. */
  function Place(s: seq<int>, x: int): (r: seq<int>)
    ensures |r| == |s| + 1
  {
    if s == [] || x <= s[0] then [x] + s else [s[0]] + Place(s[1..], x)
  }

  function Sorted(s: seq<int>): (r: seq<int>)
    ensures |r| == |s|
  {
    if s == [] then [] else Place(Sorted(s[1..]), s[0])
  }

  function CountAtMost(s: seq<int>, bound: int): nat {
    if s == [] then 0 else CountAtMost(s[1..], bound) + if s[0] <= bound then 1 else 0
  }

  lemma {:induction false} PlaceKeeps(s: seq<int>, x: int, bound: int)
    ensures CountAtMost(Place(s, x), bound) == CountAtMost(s, bound) + if x <= bound then 1 else 0
    ensures forall y :: y in Place(s, x) <==> y in s || y == x
  {
    if s == [] || x <= s[0] {
      assert ([x] + s)[1..] == s;
    } else {
      PlaceKeeps(s[1..], x, bound);
      assert Place(s, x)[1..] == Place(s[1..], x);
      assert s == [s[0]] + s[1..];
    }
  }

  lemma {:induction false} PlaceOrders(s: seq<int>, x: int)
    requires Ascending(s)
    ensures Ascending(Place(s, x))
  {
    if s != [] && x > s[0] {
      PlaceOrders(s[1..], x);
      PlaceKeeps(s[1..], x, 0);
      var rest := Place(s[1..], x);
      forall j | 0 <= j < |rest| ensures s[0] <= rest[j] {
        assert rest[j] in rest;
      }
    }
  }

  /** Sorting orders the samples and leaves the same ones at or below any bound. */
  lemma {:induction false} SortedSorts(s: seq<int>, bound: int)
    ensures Ascending(Sorted(s))
    ensures CountAtMost(Sorted(s), bound) == CountAtMost(s, bound)
    ensures forall y :: y in Sorted(s) <==> y in s
  {
    if s != [] {
      SortedSorts(s[1..], bound);
      PlaceOrders(Sorted(s[1..]), s[0]);
      PlaceKeeps(Sorted(s[1..]), s[0], bound);
      assert s == [s[0]] + s[1..];
    }
  }

  /** `ceil(n * percent / 100)` */
  function Rank(n: nat, percent: nat): nat { (n * percent + 99) / 100 }

  lemma RankBounds(n: nat, percent: nat)
    requires n > 0 && 1 <= percent <= 100
    ensures 1 <= Rank(n, percent) <= n
    ensures Rank(n, percent) * 100 >= n * percent > (Rank(n, percent) - 1) * 100
  {
    assert n <= n * percent <= n * 100;
  }

  function AtRank(samples: seq<int>, rank: nat): int
    requires 1 <= rank <= |samples|
  {
    Sorted(samples)[rank - 1]
  }

  /** The nearest-rank percentile of the samples, or none without samples. */
  function PercentileOf(samples: seq<int>, percent: nat): Option<int>
    requires 1 <= percent <= 100
  {
    if samples == [] then None
    else
      RankBounds(|samples|, percent);
      Some(AtRank(samples, Rank(|samples|, percent)))
  }

  lemma {:induction false} CountFrom(s: seq<int>, rank: nat, bound: int)
    requires Ascending(s) && 1 <= rank <= |s| && s[rank - 1] <= bound
    ensures CountAtMost(s, bound) >= rank
  {
    if rank > 1 {
      CountFrom(s[1..], rank - 1, bound);
    }
  }

  lemma {:induction false} CountBelow(s: seq<int>, rank: nat, bound: int)
    requires Ascending(s) && 1 <= rank <= |s| && bound < s[rank - 1]
    ensures CountAtMost(s, bound) <= rank - 1
  {
    if rank > 1 {
      CountBelow(s[1..], rank - 1, bound);
    } else {
      CountNone(s, bound);
    }
  }

  lemma {:induction false} CountNone(s: seq<int>, bound: int)
    requires forall i :: 0 <= i < |s| ==> bound < s[i]
    ensures CountAtMost(s, bound) == 0
  {
    if s != [] {
      CountNone(s[1..], bound);
    }
  }

  /**
    A nearest-rank percentile is one of the samples; at least that share of them lies at or below
    it, and less than that share lies at or below any smaller value.
   */
  lemma {:induction false} PercentileMeaning(samples: seq<int>, percent: nat)
    requires samples != [] && 1 <= percent <= 100
    ensures var p := PercentileOf(samples, percent).value;
            && p in samples
            && CountAtMost(samples, p) * 100 >= |samples| * percent
            && forall v :: v < p ==> CountAtMost(samples, v) * 100 < |samples| * percent
  {
    var n := |samples|;
    RankBounds(n, percent);
    AtRankMeaning(samples, Rank(n, percent));
  }

  lemma {:induction false} AtRankMeaning(samples: seq<int>, rank: nat)
    requires 1 <= rank <= |samples|
    ensures var p := AtRank(samples, rank);
            p in samples && CountAtMost(samples, p) >= rank && forall v :: v < p ==> CountAtMost(samples, v) <= rank - 1
  {
    var p := AtRank(samples, rank);
    SortedSorts(samples, p);
    assert p in Sorted(samples);
    CountFrom(Sorted(samples), rank, p);
    forall v | v < p ensures CountAtMost(samples, v) <= rank - 1 {
      SortedSorts(samples, v);
      CountBelow(Sorted(samples), rank, v);
    }
  }
}
