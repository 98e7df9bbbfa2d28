/** What a nearest-rank percentile is: the least sample at or below which the proportion of all samples lies. */
module Percentiles {
  import opened Statistics

  /** How many samples lie below x, or, with ties, at x too. */
  function CountBelow(s: seq<real>, x: real, ties: bool): (n: nat)
    ensures n <= |s|
  {
    if |s| == 0 then 0
    else CountBelow(s[1..], x, ties) + if s[0] < x || (ties && s[0] == x) then 1 else 0
  }

  lemma {:induction false} InsertCounts(y: real, s: seq<real>, x: real, ties: bool)
    ensures CountBelow(Insert(y, s), x, ties) ==
            CountBelow(s, x, ties) + if y < x || (ties && y == x) then 1 else 0
  {
    var r := Insert(y, s);
    if |s| == 0 || y <= s[0] {
      assert r == [y] + s && r[1..] == s;
    } else {
      InsertCounts(y, s[1..], x, ties);
      assert r == [s[0]] + Insert(y, s[1..]) && r[1..] == Insert(y, s[1..]);
    }
  }

  lemma {:induction false} SortCounts(s: seq<real>, x: real, ties: bool)
    ensures CountBelow(Sort(s), x, ties) == CountBelow(s, x, ties)
  {
    if |s| > 0 {
      SortCounts(s[1..], x, ties);
      InsertCounts(s[0], Sort(s[1..]), x, ties);
    }
  }

  lemma {:induction false} NoneBelowFirst(o: seq<real>, x: real)
    requires Ascending(o) && (|o| > 0 ==> x <= o[0])
    ensures CountBelow(o, x, false) == 0
  {
    if |o| > 0 {
      NoneBelowFirst(o[1..], x);
    }
  }

  /** In an ascending sequence at most i samples lie below sample i, and at least i+1 at or below it. */
  lemma {:induction false} AscendingCounts(o: seq<real>, i: nat)
    requires Ascending(o) && i < |o|
    ensures CountBelow(o, o[i], false) <= i < CountBelow(o, o[i], true)
  {
    if i == 0 {
      NoneBelowFirst(o, o[0]);
    } else {
      AscendingCounts(o[1..], i - 1);
    }
  }

  /** x is a sample; fewer samples than the proportion lie below it, and at least as many at or below it. */
  ghost predicate IsPercentile(s: seq<real>, proportion: real, x: real) {
    && x in multiset(s)
    && CountBelow(s, x, false) as real < proportion * |s| as real <= CountBelow(s, x, true) as real
  }

  lemma NearestRankCounts(s: seq<real>, proportion: real, x: real)
    requires |s| > 0 && 0.0 < proportion <= 1.0 && x == NearestRank(s, proportion)
    ensures IsPercentile(s, proportion, x)
  {
    var o, i := Sort(s), Rank(proportion, |s|) - 1;
    AscendingCounts(o, i);
    SortCounts(s, o[i], false);
    SortCounts(s, o[i], true);
    assert o[i] in multiset(o);
  }
}
