/** Which records the service fit uses, with which values, and how much of their spread the fitted line explains. */
module FitSamples {
  import opened Arithmetic
  import opened Filtering
  import opened ServiceFit

  /** A record counts when its request succeeded, was dispatched and produced output. */
  predicate Counts(r: Observation) {
    r.success && r.dispatch.Some? && r.outputTokens > 0
  }

  function Counted(records: seq<Observation>): nat -> bool {
    (k: nat) => k < |records| && Counts(records[k])
  }

  /** x is the sample of record k: its output length, and its time in the backend. */
  predicate SampledAt(x: Sample, records: seq<Observation>, k: nat) {
    && k < |records| && Counts(records[k])
    && x.tokens == records[k].outputTokens as real && x.service == records[k].completion - records[k].dispatch.value
  }

  ghost predicate SampledFrom(samples: seq<Sample>, records: seq<Observation>, at: seq<nat>) {
    |samples| == |at| && forall i :: 0 <= i < |at| ==> SampledAt(samples[i], records, at[i])
  }

  function SampleOf(r: Observation): Sample {
    Sample(r.outputTokens as real, if r.dispatch.Some? then r.completion - r.dispatch.value else 0.0)
  }

  lemma SamplesStep(records: seq<Observation>, n: nat)
    requires n < |records|
    ensures var before := Samples(records[..n]);
            Samples(records[..n + 1]) ==
            if Counts(records[n]) then before + [SampleOf(records[n])] else before
  {
    assert records[..n + 1][..n] == records[..n];
  }

  lemma SampledMore(samples: seq<Sample>, records: seq<Observation>, at: seq<nat>, x: Sample, k: nat)
    requires SampledFrom(samples, records, at) && SampledAt(x, records, k)
    ensures SampledFrom(samples + [x], records, at + [k])
  {
  }

  /** Once the next record has been looked at. */
  lemma SampledNext(
    samples: seq<Sample>, records: seq<Observation>, n: nat, at: seq<nat>, samples': seq<Sample>, kept: nat -> bool,
    x: Sample)
    returns (at': seq<nat>)
    requires n < |records| && Positions(at, n, kept) && SampledFrom(samples, records, at)
    requires kept(n) ==> SampledAt(x, records, n)
    requires samples' == if kept(n) then samples + [x] else samples
    ensures Positions(at', n + 1, kept) && SampledFrom(samples', records, at')
  {
    PositionsGrow(at, n, kept);
    at' := if kept(n) then at + [n] else at;
    if kept(n) {
      SampledMore(samples, records, at, x, n);
    }
  }

  /** The samples are exactly the records that count, in order, with output length and time in the backend. */
  lemma {:induction false} SamplesAreRecords(records: seq<Observation>, n: nat) returns (at: seq<nat>)
    requires n <= |records|
    ensures Positions(at, n, Counted(records)) && SampledFrom(Samples(records[..n]), records, at)
    decreases n
  {
    if n == 0 {
      at := [];
    } else {
      var before := SamplesAreRecords(records, n - 1);
      SamplesStep(records, n - 1);
      at := SampledNext(Samples(records[..n - 1]), records, n - 1, before, Samples(records[..n]),
                        Counted(records), SampleOf(records[n - 1]));
    }
  }

  lemma MeanOf(total: real, n: real, y: real)
    requires n > 0.0 && Product(n, y) == total
    ensures y == total / n
  {
  }

  lemma UnexplainedShare(least: real, total: real)
    requires total > 0.0
    ensures Product(1.0 - (1.0 - least / total), total) == least
  {
  }

  /**
   The fit counts its samples, and 1 - r squared is the share of the spread around the mean service time that the line
   leaves unexplained.
  */
  lemma RSquaredIsExplained(records: seq<Observation>, mean: real)
    requires FitLinear(records).Success?
    requires Product(|Samples(records)| as real, mean) == TotalService(Samples(records))
    ensures var s, f := Samples(records), FitLinear(records).value;
            && f.count == |s|
            && Product(1.0 - f.rSquared, Loss(s, 0.0, mean)) == Loss(s, f.slope, f.intercept)
            && (Loss(s, 0.0, mean) == 0.0 ==> f.rSquared == 1.0)
  {
    var s, f := Samples(records), FitLinear(records).value;
    MeanOf(TotalService(s), |s| as real, mean);
    FlatLoss(s, mean);
    var total, least := ServiceSpread(s, mean), Loss(s, f.slope, f.intercept);
    if total > 0.0 {
      UnexplainedShare(least, total);
    } else {
      SpreadsAreNonNegative(s, 0.0, mean);
      FitIsLeastSquares(records, 0.0, mean);
      LossIsNonNegative(s, f.slope, f.intercept);
      assert Product(0.0, total) == 0.0;
    }
  }
}
