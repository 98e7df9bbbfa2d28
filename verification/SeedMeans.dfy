/** What the bootstrap interval reports: the mean over the seeds, and percentiles of the means over all resamples. */
module SeedMeans {
  import opened Arithmetic
  import opened Percentiles
  import opened SeedBootstrap
  import opened Statistics

  /** The drawn seeds' values, added up. */
  function Total(values: SeedValues, draw: seq<nat>): real
    requires forall i :: 0 <= i < |draw| ==> draw[i] in values
  {
    if |draw| == 0 then 0.0 else Total(values, draw[..|draw| - 1]) + values[draw[|draw| - 1]]
  }

  lemma {:induction false} TotalIsSum(values: SeedValues, draw: seq<nat>)
    requires forall i :: 0 <= i < |draw| ==> draw[i] in values
    ensures Total(values, draw) == Sum(Picked(values, draw))
  {
    if |draw| > 0 {
      var n := |draw| - 1;
      TotalIsSum(values, draw[..n]);
      assert Picked(values, draw)[..n] == Picked(values, draw[..n]);
    }
  }

  lemma MeanTimesCount(total: real, n: real)
    requires n > 0.0
    ensures Product(total / n, n) == total
  {
  }

  // ---------------------------------------------------------------- the order of the seeds does not matter

  function Omit(draw: seq<nat>, j: nat): seq<nat>
    requires j < |draw|
  {
    draw[..j] + draw[j + 1..]
  }

  lemma OmitsOne(draw: seq<nat>, j: nat)
    requires j < |draw|
    ensures multiset(Omit(draw, j)) == multiset(draw) - multiset{draw[j]}
    ensures forall i :: 0 <= i < |Omit(draw, j)| ==> Omit(draw, j)[i] in draw
  {
    assert draw == draw[..j] + [draw[j]] + draw[j + 1..];
  }

  lemma {:induction false} TotalOmits(values: SeedValues, draw: seq<nat>, j: nat)
    requires j < |draw| && forall i :: 0 <= i < |draw| ==> draw[i] in values
    ensures forall i :: 0 <= i < |Omit(draw, j)| ==> Omit(draw, j)[i] in values
    ensures Total(values, draw) == Total(values, Omit(draw, j)) + values[draw[j]]
  {
    var n := |draw| - 1;
    if j < n {
      TotalOmits(values, draw[..n], j);
      var rest := Omit(draw, j);
      assert rest[..n - 1] == Omit(draw[..n], j) && rest[n - 1] == draw[n];
    } else {
      assert Omit(draw, j) == draw[..n];
    }
  }

  lemma FindLast(a: seq<nat>, b: seq<nat>) returns (j: nat)
    requires |a| > 0 && multiset(a) == multiset(b)
    ensures j < |b| && b[j] == a[|a| - 1] && multiset(a[..|a| - 1]) == multiset(Omit(b, j))
  {
    var n := |a| - 1;
    assert a == a[..n] + [a[n]];
    assert a[n] in multiset(b);
    j :| 0 <= j < |b| && b[j] == a[n];
    OmitsOne(b, j);
  }

  lemma {:induction false} TotalIgnoresOrder(values: SeedValues, a: seq<nat>, b: seq<nat>)
    requires forall i :: 0 <= i < |a| ==> a[i] in values
    requires forall i :: 0 <= i < |b| ==> b[i] in values
    requires multiset(a) == multiset(b)
    ensures Total(values, a) == Total(values, b)
    decreases |a|
  {
    assert |multiset(a)| == |a| && |multiset(b)| == |b|;
    if |a| > 0 {
      var j := FindLast(a, b);
      TotalOmits(values, b, j);
      TotalIgnoresOrder(values, a[..|a| - 1], Omit(b, j));
    }
  }

  function Members(s: seq<nat>): (m: set<nat>)
    ensures forall x :: x in m <==> x in s
  {
    set x | x in s
  }

  lemma {:induction false} MembersBound(s: seq<nat>)
    ensures |Members(s)| <= |s|
  {
    if |s| > 0 {
      var n := |s| - 1;
      MembersBound(s[..n]);
      assert s == s[..n] + [s[n]];
      assert Members(s) == Members(s[..n]) + {s[n]};
    }
  }

  /** A listing of a set names every element once. */
  lemma {:induction false} ListingIsSet(seeds: seq<nat>, keys: set<nat>)
    requires |seeds| == |keys| && Members(seeds) == keys
    ensures multiset(seeds) == multiset(keys)
  {
    if |seeds| > 0 {
      var n := |seeds| - 1;
      var x, rest := seeds[n], seeds[..n];
      assert seeds == rest + [x];
      if x in rest {
        assert Members(rest) == keys;
        MembersBound(rest);
        assert false;
      }
      assert Members(rest) == keys - {x};
      ListingIsSet(rest, keys - {x});
      assert keys == (keys - {x}) + {x};
    }
  }

  lemma ListingsAgree(values: SeedValues, a: seq<nat>, b: seq<nat>)
    requires Lists(a, values) && Lists(b, values)
    ensures multiset(a) == multiset(b)
  {
    assert Members(a) == values.Keys == Members(b) && |values| == |values.Keys|;
    ListingIsSet(a, values.Keys);
    ListingIsSet(b, values.Keys);
  }

  // ---------------------------------------------------------------- the estimate

  lemma {:induction false} TotalOfDifferences(treatment: SeedValues, baseline: SeedValues, order: seq<nat>)
    requires treatment.Keys == baseline.Keys && forall i :: 0 <= i < |order| ==> order[i] in treatment
    ensures Total(Differences(treatment, baseline), order) == Total(treatment, order) - Total(baseline, order)
  {
    if |order| > 0 {
      TotalOfDifferences(treatment, baseline, order[..|order| - 1]);
    }
  }

  lemma EstimateIsMean(seeds: seq<nat>, values: SeedValues, order: seq<nat>)
    requires Lists(seeds, values) && Lists(order, values) && 0 < |seeds| <= 6
    ensures var r := Bootstrap(seeds, values);
            r.seedCount == |values.Keys| && Product(r.estimate, |values.Keys| as real) == Total(values, order)
  {
    ListingsAgree(values, seeds, order);
    TotalIgnoresOrder(values, seeds, order);
    TotalIsSum(values, seeds);
    MeanTimesCount(Total(values, seeds), |seeds| as real);
  }

  /**
   The reported estimate, times the number of seeds, is the treatment's total less the baseline's, in whatever order the
   seeds are listed: the difference of their means.
  */
  lemma DifferenceOfMeans(treatment: SeedValues, baseline: SeedValues, order: seq<nat>)
    requires PairedDifference(treatment, baseline).Success? && Lists(order, treatment)
    ensures var r := PairedDifference(treatment, baseline).value;
            && r.seedCount == |treatment.Keys|
            && Product(r.estimate, |treatment.Keys| as real) == Total(treatment, order) - Total(baseline, order)
  {
    var values, seeds := Differences(treatment, baseline), SortedKeys(treatment.Keys);
    assert values.Keys == treatment.Keys && |values| == |values.Keys| && |treatment| == |treatment.Keys|;
    EstimateIsMean(seeds, values, order);
    TotalOfDifferences(treatment, baseline, order);
  }

  // ---------------------------------------------------------------- the ends of the interval

  /** means[k] is the mean over the k-th of all ways to draw as many seeds as there are, with replacement. */
  ghost predicate MeansOfDraws(values: SeedValues, seeds: seq<nat>, means: seq<real>) {
    var draws := Resamples(seeds, |seeds|);
    && |means| == |draws|
    && forall k :: 0 <= k < |draws| ==> MeanOfDraw(values, draws[k], means[k])
  }

  ghost predicate MeanOfDraw(values: SeedValues, draw: seq<nat>, mean: real) {
    (forall i :: 0 <= i < |draw| ==> draw[i] in values) && Product(mean, |draw| as real) == Total(values, draw)
  }

  lemma MeanIsUnique(x: real, y: real, n: real)
    requires n > 0.0 && Product(x, n) == Product(y, n)
    ensures x == y
  {
  }

  lemma MeansAreUnique(values: SeedValues, seeds: seq<nat>, means: seq<real>)
    requires Lists(seeds, values) && |seeds| > 0 && MeansOfDraws(values, seeds, means)
    ensures forall k :: 0 <= k < |Resamples(seeds, |seeds|)| ==> Usable(Resamples(seeds, |seeds|)[k], values)
    ensures means == DrawMeans(values, Resamples(seeds, |seeds|))
  {
    var draws := Resamples(seeds, |seeds|);
    DrawsAreDefined(seeds, values);
    forall k | 0 <= k < |draws| ensures means[k] == DrawMeans(values, draws)[k] {
      assert MeanOfDraw(values, draws[k], means[k]) && Usable(draws[k], values);
      TotalIsSum(values, draws[k]);
      MeanTimesCount(Total(values, draws[k]), |draws[k]| as real);
      MeanIsUnique(means[k], DrawMean(values, draws[k]), |draws[k]| as real);
    }
  }

  lemma EndsAreRanks(seeds: seq<nat>, values: SeedValues, means: seq<real>)
    requires Lists(seeds, values) && 0 < |seeds| <= 6 && MeansOfDraws(values, seeds, means)
    ensures |means| == Power(|seeds|, |seeds|) > 0
    ensures Bootstrap(seeds, values).low == NearestRank(means, 0.025)
    ensures Bootstrap(seeds, values).high == NearestRank(means, 0.975)
  {
    MeansAreUnique(values, seeds, means);
    DrawsAreDefined(seeds, values);
    ResampleCount(seeds, |seeds|);
  }

  /**
   The ends of the interval are the 2.5th and the 97.5th percentile of the means of all n^n draws: of the draws, fewer
   than that share have a mean below the end, and at least that share one at or below it.
  */
  lemma EndsArePercentiles(seeds: seq<nat>, values: SeedValues, means: seq<real>)
    requires Lists(seeds, values) && 0 < |seeds| <= 6 && MeansOfDraws(values, seeds, means)
    ensures |means| == Power(|seeds|, |seeds|)
    ensures IsPercentile(means, 0.025, Bootstrap(seeds, values).low)
    ensures IsPercentile(means, 0.975, Bootstrap(seeds, values).high)
  {
    EndsAreRanks(seeds, values, means);
    NearestRankCounts(means, 0.025, Bootstrap(seeds, values).low);
    NearestRankCounts(means, 0.975, Bootstrap(seeds, values).high);
  }
}
