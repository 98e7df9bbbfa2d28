/** Exact bootstrap of a mean over whole seed clusters, and the latency gate that reads its interval. */
module SeedBootstrap {
  import opened Arithmetic
  import opened Statistics
  import opened Wrappers

  /** One statistic per random seed. */
  type SeedValues = map<nat, real>

  datatype Interval = Interval(estimate: real, low: real, high: real, seedCount: nat)

  datatype StatisticError = NotAligned | TooManySeeds

  datatype GateError = Refused(error: StatisticError) | NotStable

  /** The prefixes extended by every seed, the seed varying fastest. */
  function Extend(prefixes: seq<seq<nat>>, seeds: seq<nat>): (r: seq<seq<nat>>)
    ensures |r| == |prefixes| * |seeds|
  {
    if |prefixes| == 0 then []
    else
      Successor(|prefixes| - 1, |seeds|);
      Extend(prefixes[..|prefixes| - 1], seeds)
          + seq(|seeds|, i requires 0 <= i < |seeds| => prefixes[|prefixes| - 1] + [seeds[i]])
  }

  lemma Successor(m: int, n: int)
    ensures (m + 1) * n == m * n + n
  {
  }

  /** Every way to draw k seeds with replacement, in the order of a Cartesian product. */
  function Resamples(seeds: seq<nat>, k: nat): seq<seq<nat>> {
    if k == 0 then [[]] else Extend(Resamples(seeds, k - 1), seeds)
  }

  ghost predicate DrawnFrom(seeds: seq<nat>, k: nat, r: seq<nat>) {
    |r| == k && forall i :: 0 <= i < k ==> r[i] in seeds
  }

  lemma {:induction false} ExtendContains(prefixes: seq<seq<nat>>, seeds: seq<nat>, r: seq<nat>)
    ensures r in Extend(prefixes, seeds) <==> |r| > 0 && r[..|r| - 1] in prefixes && r[|r| - 1] in seeds
  {
    if |prefixes| > 0 {
      var n := |prefixes| - 1;
      ExtendContains(prefixes[..n], seeds, r);
      var last := seq(|seeds|, i requires 0 <= i < |seeds| => prefixes[n] + [seeds[i]]);
      if r in last {
        var i :| 0 <= i < |seeds| && last[i] == r;
      }
      if |r| > 0 && r[..|r| - 1] == prefixes[n] && r[|r| - 1] in seeds {
        var i :| 0 <= i < |seeds| && seeds[i] == r[|r| - 1];
        assert r == prefixes[n] + [seeds[i]] == last[i];
      }
    }
  }

  /** The enumeration misses no resample and invents none. */
  lemma {:induction false} ResamplesAreDraws(seeds: seq<nat>, k: nat, r: seq<nat>)
    ensures r in Resamples(seeds, k) <==> DrawnFrom(seeds, k, r)
  {
    if k == 0 {
      assert r in Resamples(seeds, 0) <==> r == [];
    } else {
      ExtendContains(Resamples(seeds, k - 1), seeds, r);
      if |r| > 0 {
        ResamplesAreDraws(seeds, k - 1, r[..|r| - 1]);
        assert r == r[..|r| - 1] + [r[|r| - 1]];
      }
    }
  }

  function Power(n: nat, k: nat): nat {
    if k == 0 then 1 else Power(n, k - 1) * n
  }

  lemma {:induction false} ResampleCount(seeds: seq<nat>, k: nat)
    ensures |Resamples(seeds, k)| == Power(|seeds|, k)
  {
    if k > 0 {
      ResampleCount(seeds, k - 1);
    }
  }

  function Picked(values: SeedValues, draw: seq<nat>): seq<real>
    requires forall i :: 0 <= i < |draw| ==> draw[i] in values
  {
    seq(|draw|, i requires 0 <= i < |draw| => values[draw[i]])
  }

  /** The mean of the drawn seeds' values. */
  function DrawMean(values: SeedValues, draw: seq<nat>): real
    requires Usable(draw, values)
  {
    Sum(Picked(values, draw)) / |draw| as real
  }

  /** seeds lists the keys of values without repeats. */
  ghost predicate Lists(seeds: seq<nat>, values: SeedValues) {
    && |seeds| == |values|
    && (forall i :: 0 <= i < |seeds| ==> seeds[i] in values)
    && (forall x :: x in values ==> x in seeds)
  }

  predicate Usable(draw: seq<nat>, values: SeedValues) {
    |draw| > 0 && forall i :: 0 <= i < |draw| ==> draw[i] in values
  }

  function DrawMeans(values: SeedValues, draws: seq<seq<nat>>): seq<real>
    requires forall k :: 0 <= k < |draws| ==> Usable(draws[k], values)
  {
    seq(|draws|, k requires 0 <= k < |draws| => DrawMean(values, draws[k]))
  }

  lemma DrawsAreDefined(seeds: seq<nat>, values: SeedValues)
    requires Lists(seeds, values) && |seeds| > 0
    ensures forall k :: 0 <= k < |Resamples(seeds, |seeds|)| ==> Usable(Resamples(seeds, |seeds|)[k], values)
    ensures |Resamples(seeds, |seeds|)| > 0
  {
    var draws := Resamples(seeds, |seeds|);
    forall k | 0 <= k < |draws| ensures DrawnFrom(seeds, |seeds|, draws[k]) {
      ResamplesAreDraws(seeds, |seeds|, draws[k]);
      assert draws[k] in draws;
    }
    var same := seq(|seeds|, _ => seeds[0]);
    ResamplesAreDraws(seeds, |seeds|, same);
  }

  /** The percentile interval of the mean over all resamples of the listed seeds. */
  function Bootstrap(seeds: seq<nat>, values: SeedValues): Interval
    requires Lists(seeds, values) && 0 < |seeds| <= 6
  {
    DrawsAreDefined(seeds, values);
    var means := DrawMeans(values, Resamples(seeds, |seeds|));
    Interval(DrawMean(values, seeds), NearestRank(means, 0.025), NearestRank(means, 0.975), |seeds|)
  }

  // ---------------------------------------------------------------- what the interval means

  /** x is the value of some seed and no seed's value is smaller. */
  ghost predicate IsLeast(values: SeedValues, x: real) {
    (exists k :: k in values && values[k] == x) && forall k :: k in values ==> x <= values[k]
  }

  ghost predicate IsLargest(values: SeedValues, x: real) {
    (exists k :: k in values && values[k] == x) && forall k :: k in values ==> values[k] <= x
  }

  lemma {:induction false} SumIsBetween(xs: seq<real>, low: real, high: real)
    requires forall i :: 0 <= i < |xs| ==> low <= xs[i] <= high
    ensures Product(|xs| as real, low) <= Sum(xs) <= Product(|xs| as real, high)
  {
    if |xs| == 0 {
      assert Product(0.0, low) == 0.0 && Product(0.0, high) == 0.0;
    } else {
      SumIsBetween(xs[..|xs| - 1], low, high);
      Distribute((|xs| - 1) as real, 1.0, low);
      Distribute((|xs| - 1) as real, 1.0, high);
      assert (|xs| - 1) as real + 1.0 == |xs| as real;
    }
  }

  lemma Undo(n: real, x: real)
    requires n > 0.0
    ensures Product(n, x) / n == x
  {
  }

  lemma MeanIsBetween(values: SeedValues, draw: seq<nat>, low: real, high: real)
    requires Usable(draw, values)
    requires forall k :: k in values ==> low <= values[k] <= high
    ensures low <= DrawMean(values, draw) <= high
  {
    var n := |draw| as real;
    var xs := Picked(values, draw);
    forall i | 0 <= i < |xs| ensures low <= xs[i] <= high {
      var k := draw[i];
      assert k in values && xs[i] == values[k];
      assert low <= values[k] <= high;
    }
    SumIsBetween(xs, low, high);
    QuotientGrows(Product(n, low), Sum(Picked(values, draw)), n);
    QuotientGrows(Sum(Picked(values, draw)), Product(n, high), n);
    Undo(n, low);
    Undo(n, high);
  }

  /** Drawing one seed every time gives that seed's own value. */
  lemma SameDrawMean(values: SeedValues, k: nat, n: nat)
    requires k in values && n > 0
    ensures DrawMean(values, seq(n, _ => k)) == values[k]
  {
    var draw := seq(n, _ => k);
    MeanIsBetween(map[k := values[k]], draw, values[k], values[k]);
    assert Picked(values, draw) == Picked(map[k := values[k]], draw);
  }

  lemma MeansAreBetween(values: SeedValues, draws: seq<seq<nat>>, low: real, high: real)
    requires forall k :: 0 <= k < |draws| ==> Usable(draws[k], values)
    requires forall k :: k in values ==> low <= values[k] <= high
    ensures forall k :: 0 <= k < |draws| ==> low <= DrawMeans(values, draws)[k] <= high
  {
    forall k | 0 <= k < |draws| ensures low <= DrawMeans(values, draws)[k] <= high {
      MeanIsBetween(values, draws[k], low, high);
    }
  }

  lemma SortedIsSample(means: seq<real>, i: nat)
    requires i < |means|
    ensures Sort(means)[i] in means
  {
    assert Sort(means)[i] in multiset(Sort(means));
  }

  /** A percentile is one of the samples. */
  lemma NearestRankIsSample(means: seq<real>, proportion: real)
    requires |means| > 0 && 0.0 < proportion <= 1.0
    ensures NearestRank(means, proportion) in means
  {
    SortedIsSample(means, Rank(proportion, |means|) - 1);
  }

  /** For up to six seeds, both ends lie between the smallest and the largest per-seed value. */
  lemma IntervalWithinRange(seeds: seq<nat>, values: SeedValues, least: real, largest: real)
    requires Lists(seeds, values) && 0 < |seeds| <= 6
    requires IsLeast(values, least) && IsLargest(values, largest)
    ensures var r := Bootstrap(seeds, values);
            least <= r.low <= largest && least <= r.high <= largest && least <= r.estimate <= largest
  {
    DrawsAreDefined(seeds, values);
    var draws := Resamples(seeds, |seeds|);
    var means := DrawMeans(values, draws);
    MeansAreBetween(values, draws, least, largest);
    MeanIsBetween(values, seeds, least, largest);
    NearestRankIsSample(means, 0.025);
    NearestRankIsSample(means, 0.975);
  }

  lemma AttainedMean(seeds: seq<nat>, values: SeedValues, x: real)
    requires Lists(seeds, values) && 0 < |seeds| <= 6
    requires exists k :: k in values && values[k] == x
    ensures forall k :: 0 <= k < |Resamples(seeds, |seeds|)| ==> Usable(Resamples(seeds, |seeds|)[k], values)
    ensures x in DrawMeans(values, Resamples(seeds, |seeds|))
  {
    DrawsAreDefined(seeds, values);
    var k :| k in values && values[k] == x;
    var draw := seq(|seeds|, _ => k);
    var draws := Resamples(seeds, |seeds|);
    ResamplesAreDraws(seeds, |seeds|, draw);
    var i :| 0 <= i < |draws| && draws[i] == draw;
    SameDrawMean(values, k, |seeds|);
    assert DrawMeans(values, draws)[i] == x;
  }

  /** With one, two or three seeds the 2.5th and 97.5th percentiles are the first and the last sample. */
  lemma OuterRanks(n: nat)
    requires 1 <= n <= 3
    ensures Power(n, n) > 0 && Rank(0.025, Power(n, n)) == 1 && Rank(0.975, Power(n, n)) == Power(n, n)
  {
    if n == 1 {
      assert Power(1, 1) == 1;
    } else if n == 2 {
      assert Power(2, 1) == 2 && Power(2, 2) == 4;
    } else {
      assert Power(3, 1) == 3 && Power(3, 2) == 9 && Power(3, 3) == 27;
    }
  }

  lemma SortedEnds(sorted: seq<real>, means: seq<real>, least: real, largest: real)
    requires Ascending(sorted) && multiset(sorted) == multiset(means) && |sorted| == |means| > 0
    requires least in multiset(means) && largest in multiset(means)
    requires forall x :: x in multiset(means) ==> least <= x <= largest
    ensures sorted[0] == least && sorted[|sorted| - 1] == largest
  {
    assert sorted[0] in multiset(sorted) && sorted[|sorted| - 1] in multiset(sorted);
    assert least in multiset(sorted) && largest in multiset(sorted);
    var i :| 0 <= i < |sorted| && sorted[i] == least;
    var j :| 0 <= j < |sorted| && sorted[j] == largest;
  }

  lemma OuterPercentiles(means: seq<real>, n: nat, least: real, largest: real)
    requires 1 <= n <= 3 && |means| == Power(n, n)
    requires least in means && largest in means && forall k :: 0 <= k < |means| ==> least <= means[k] <= largest
    ensures NearestRank(means, 0.025) == least && NearestRank(means, 0.975) == largest
  {
    OuterRanks(n);
    assert forall x :: x in multiset(means) ==> x in means;
    SortedEnds(Sort(means), means, least, largest);
  }

  /** For up to three seeds the interval is exactly the range of the per-seed values. */
  lemma IntervalIsRange(seeds: seq<nat>, values: SeedValues, least: real, largest: real)
    requires Lists(seeds, values) && 0 < |seeds| <= 3
    requires IsLeast(values, least) && IsLargest(values, largest)
    ensures Bootstrap(seeds, values).low == least && Bootstrap(seeds, values).high == largest
  {
    var draws := Resamples(seeds, |seeds|);
    DrawsAreDefined(seeds, values);
    ResampleCount(seeds, |seeds|);
    MeansAreBetween(values, draws, least, largest);
    AttainedMean(seeds, values, least);
    AttainedMean(seeds, values, largest);
    OuterPercentiles(DrawMeans(values, draws), |seeds|, least, largest);
  }

  // ---------------------------------------------------------------- paired differences and the latency gate

  ghost predicate IsMin(s: set<nat>, m: nat) {
    m in s && forall x :: x in s ==> m <= x
  }

  lemma {:induction false} LeastExists(s: set<nat>) returns (m: nat)
    requires |s| > 0
    ensures IsMin(s, m)
    decreases |s|
  {
    m :| m in s;
    var rest := s - {m};
    assert forall x :: x in s ==> x == m || x in rest;
    if |rest| > 0 {
      var least := LeastExists(rest);
      m := if m < least then m else least;
    }
  }

  ghost function Least(s: set<nat>): (m: nat)
    requires |s| > 0
    ensures IsMin(s, m)
  {
    assert exists m :: IsMin(s, m) by {
      var m := LeastExists(s);
    }
    var m :| IsMin(s, m);
    m
  }

  /** The keys in ascending order. */
  ghost function SortedKeys(s: set<nat>): (r: seq<nat>)
    ensures |r| == |s| && forall x :: x in r <==> x in s
    decreases |s|
  {
    if |s| == 0 then []
    else
      var m := Least(s);
      var rest := SortedKeys(s - {m});
      assert forall x :: x in [m] + rest <==> x == m || x in rest;
      [m] + rest
  }

  function Differences(treatment: SeedValues, baseline: SeedValues): SeedValues
    requires treatment.Keys == baseline.Keys
  {
    map k | k in treatment :: treatment[k] - baseline[k]
  }

  /** The interval of the mean difference; both samples must cover the same non-empty set of at most six seeds. */
  ghost function PairedDifference(treatment: SeedValues, baseline: SeedValues): (r: Result<Interval, StatisticError>)
    ensures r.Success? <==> treatment.Keys == baseline.Keys && 0 < |treatment.Keys| <= 6
    ensures r == Failure(TooManySeeds) <==> treatment.Keys == baseline.Keys && |treatment.Keys| > 6
  {
    if treatment.Keys != baseline.Keys || |treatment.Keys| == 0 then Failure(NotAligned)
    else if |treatment.Keys| > 6 then Failure(TooManySeeds)
    else
      var values, seeds := Differences(treatment, baseline), SortedKeys(treatment.Keys);
      assert values.Keys == treatment.Keys && |values| == |values.Keys|;
      Success(Bootstrap(seeds, values))
  }

  /** The gate's verdict on the two intervals. */
  function Verdict(wait: Result<Interval, StatisticError>, slo: Result<Interval, StatisticError>)
    : (r: Result<(Interval, Interval), GateError>)
    ensures r.Success? <==> wait.Success? && slo.Success? && wait.value.low > 0.0 && slo.value.low > 0.0
  {
    if wait.Failure? then Failure(Refused(wait.error))
    else if slo.Failure? then Failure(Refused(slo.error))
    else if wait.value.low <= 0.0 || slo.value.low <= 0.0 then Failure(NotStable)
    else Success((wait.value, slo.value))
  }

  ghost function CheckLatencyBenefit(
    noClipWait: SeedValues, adaptiveWait: SeedValues, noClipSlo: SeedValues,
    adaptiveSlo: SeedValues): Result<(Interval, Interval), GateError>
  {
    Verdict(PairedDifference(noClipWait, adaptiveWait), PairedDifference(adaptiveSlo, noClipSlo))
  }

  /** Every seed is strictly better under the treatment. */
  ghost predicate Unanimous(better: SeedValues, worse: SeedValues)
    requires better.Keys == worse.Keys
  {
    forall k :: k in better ==> better[k] > worse[k]
  }

  lemma {:induction false} RangeExists(values: SeedValues) returns (least: real, largest: real)
    requires |values.Keys| > 0
    ensures IsLeast(values, least) && IsLargest(values, largest)
    decreases |values.Keys|
  {
    var k :| k in values;
    var rest := values - {k};
    assert rest.Keys == values.Keys - {k};
    least, largest := values[k], values[k];
    if |rest.Keys| > 0 {
      var low, high := RangeExists(rest);
      var i :| i in rest && rest[i] == low;
      var j :| j in rest && rest[j] == high;
      assert values[i] == low && values[j] == high;
      least, largest := if low < least then low else least, if high > largest then high else largest;
    }
    assert forall x :: x in values ==> x == k || (x in rest && rest[x] == values[x]);
  }

  lemma PositiveLowEnd(treatment: SeedValues, baseline: SeedValues)
    requires treatment.Keys == baseline.Keys && 0 < |treatment.Keys| <= 6
    ensures Unanimous(treatment, baseline) ==> PairedDifference(treatment, baseline).value.low > 0.0
    ensures |treatment.Keys| <= 3 && PairedDifference(treatment, baseline).value.low > 0.0 ==>
        Unanimous(treatment, baseline)
  {
    var values, seeds := Differences(treatment, baseline), SortedKeys(treatment.Keys);
    assert values.Keys == treatment.Keys && |values| == |values.Keys|;
    var least, largest := RangeExists(values);
    IntervalWithinRange(seeds, values, least, largest);
    if |treatment.Keys| <= 3 {
      IntervalIsRange(seeds, values, least, largest);
    }
    var k :| k in values && values[k] == least;
    assert forall x :: x in treatment ==> values[x] == treatment[x] - baseline[x];
  }

  /** Unanimous improvement on both metrics always passes; for up to three seeds nothing else does. */
  lemma LatencyGateIsUnanimity(noClipWait: SeedValues, adaptiveWait: SeedValues, noClipSlo: SeedValues,
      adaptiveSlo: SeedValues)
    requires noClipWait.Keys == adaptiveWait.Keys && 0 < |noClipWait.Keys| <= 6
    requires noClipSlo.Keys == adaptiveSlo.Keys && 0 < |adaptiveSlo.Keys| <= 6
    ensures var passes := CheckLatencyBenefit(noClipWait, adaptiveWait, noClipSlo, adaptiveSlo).Success?;
            && (Unanimous(noClipWait, adaptiveWait) && Unanimous(adaptiveSlo, noClipSlo) ==> passes)
            && (|noClipWait.Keys| <= 3 && passes ==> Unanimous(noClipWait, adaptiveWait))
            && (|adaptiveSlo.Keys| <= 3 && passes ==> Unanimous(adaptiveSlo, noClipSlo))
  {
    PositiveLowEnd(noClipWait, adaptiveWait);
    PositiveLowEnd(adaptiveSlo, noClipSlo);
  }
}
