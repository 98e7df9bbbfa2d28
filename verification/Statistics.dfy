/** Sorted samples of reals: medians and nearest-rank percentiles. */
module Statistics {

  ghost predicate Ascending(s: seq<real>) {
    forall i, j :: 0 <= i <= j < |s| ==> s[i] <= s[j]
  }

  function Insert(x: real, s: seq<real>): (r: seq<real>)
    ensures multiset(r) == multiset{x} + multiset(s) && |r| == |s| + 1
  {
    if |s| == 0 || x <= s[0] then [x] + s
    else
      assert s == [s[0]] + s[1..];
      [s[0]] + Insert(x, s[1..])
  }

  lemma {:induction false} InsertAscends(x: real, s: seq<real>)
    requires Ascending(s)
    ensures Ascending(Insert(x, s))
  {
    if |s| > 0 && x > s[0] {
      InsertAscends(x, s[1..]);
      var rest := Insert(x, s[1..]);
      forall k | 0 <= k < |rest| ensures s[0] <= rest[k] {
        assert rest[k] in multiset(rest);
        if rest[k] != x {
          var m :| 0 <= m < |s[1..]| && s[1..][m] == rest[k];
        }
      }
    }
  }

  function Sort(s: seq<real>): (r: seq<real>)
    ensures multiset(r) == multiset(s) && |r| == |s| && Ascending(r)
  {
    if |s| == 0 then []
    else
      assert s == [s[0]] + s[1..];
      InsertAscends(s[0], Sort(s[1..]));
      Insert(s[0], Sort(s[1..]))
  }

  /** The middle sample, or the mean of the middle two. */
  function Middle(o: seq<real>): real
    requires |o| > 0
  {
    var m := |o| / 2;
    if |o| % 2 == 1 then o[m] else (o[m - 1] + o[m]) / 2.0
  }

  function Median(s: seq<real>): real
    requires |s| > 0
  {
    Middle(Sort(s))
  }

  lemma MiddleSplits(o: seq<real>, i: nat)
    requires Ascending(o) && i < |o|
    ensures i < (|o| + 1) / 2 ==> o[i] <= Middle(o)
    ensures |o| / 2 <= i ==> Middle(o) <= o[i]
  {
    var m := |o| / 2;
    if i < m {
      assert o[i] <= o[m - 1] <= o[m];
    } else {
      assert o[m] <= o[i];
      assert m > 0 ==> o[m - 1] <= o[m];
    }
  }

  /** At least half the samples are no larger than the median, and at least half no smaller. */
  lemma MedianSplits(s: seq<real>, i: nat)
    requires i < |s|
    ensures i < (|s| + 1) / 2 ==> Sort(s)[i] <= Median(s)
    ensures |s| / 2 <= i ==> Median(s) <= Sort(s)[i]
  {
    MiddleSplits(Sort(s), i);
  }

  /** The middle sample of an odd number, and half the sum of the middle two of an even number. */
  lemma MedianIsMiddle(s: seq<real>, m: nat)
    ensures |s| == 2 * m + 1 ==> Median(s) == Sort(s)[m]
    ensures |s| == 2 * m + 2 ==> 2.0 * Median(s) == Sort(s)[m] + Sort(s)[m + 1]
  {
  }

  /** The least whole number that reaches the proportion of n. */
  function Rank(proportion: real, n: nat): (rank: int)
    requires n > 0 && 0.0 < proportion <= 1.0
    ensures 1 <= rank <= n && (rank - 1) as real < proportion * n as real <= rank as real
  {
    RankInRange(proportion, n);
    -((-(proportion * n as real)).Floor)
  }

  lemma RankInRange(proportion: real, n: nat)
    requires n > 0 && 0.0 < proportion <= 1.0
    ensures 1 <= -((-(proportion * n as real)).Floor) <= n
    ensures var rank := -((-(proportion * n as real)).Floor);
            (rank - 1) as real < proportion * n as real <= rank as real
  {
    var x := proportion * n as real;
    assert 0.0 < x <= n as real;
  }

  /** The sorted sample at the proportion's rank. */
  function NearestRank(s: seq<real>, proportion: real): real
    requires |s| > 0 && 0.0 < proportion <= 1.0
  {
    Sort(s)[Rank(proportion, |s|) - 1]
  }
}
