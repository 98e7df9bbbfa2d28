/** The mean-wait estimate against the queue it describes: its errors, its moments, and the balance an arrival sees. */
module WaitBalance {
  import opened Arithmetic
  import opened MeanWait
  import opened ServiceFit
  import opened Wrappers

  /** times[i] is what output i takes when the slots share the fitted service time. */
  ghost predicate Serves(fit: Fit, lengths: seq<int>, concurrency: int, times: seq<real>) {
    |times| == |lengths| && forall i :: 0 <= i < |lengths| ==>
      Product(times[i], concurrency as real) == Product(fit.slope, lengths[i] as real) + fit.intercept
  }

  lemma SharedTime(x: real, c: real, t: real)
    requires c > 0.0 && Product(t, c) == x
    ensures t == x / c
  {
  }

  lemma TimesAreServed(fit: Fit, lengths: seq<int>, concurrency: int, times: seq<real>)
    requires concurrency >= 1 && Serves(fit, lengths, concurrency, times)
    ensures ServiceTimes(fit, lengths, concurrency) == times
  {
    forall i | 0 <= i < |lengths| ensures ServiceTimes(fit, lengths, concurrency)[i] == times[i] {
      SharedTime(Product(fit.slope, lengths[i] as real) + fit.intercept, concurrency as real, times[i]);
    }
  }

  /** The estimate fails exactly on an empty sample, or a rate, server count, length or time that is not positive. */
  lemma EstimateFails(lengths: seq<int>, rate: real, fit: Fit, concurrency: int)
    ensures var r := EstimateWait(lengths, rate, fit, concurrency);
            && (r == Failure(NoLengths) <==> |lengths| == 0)
            && (r == Failure(RateNotPositive) <==> |lengths| > 0 && rate <= 0.0)
            && (r == Failure(NoServer) <==> |lengths| > 0 && rate > 0.0 && concurrency < 1)
            && (r == Failure(LengthNotPositive) <==>
                  |lengths| > 0 && rate > 0.0 && concurrency >= 1 && exists i :: 0 <= i < |lengths| && lengths[i] < 1)
            && (r == Failure(ServiceNotPositive) <==>
                  && |lengths| > 0 && rate > 0.0 && concurrency >= 1
                  && (forall i :: 0 <= i < |lengths| ==> lengths[i] >= 1)
                  && exists i :: 0 <= i < |lengths| && Product(fit.slope, lengths[i] as real) + fit.intercept <= 0.0)
  {
    if concurrency >= 1 {
      forall i | 0 <= i < |lengths|
        ensures ServiceTimes(fit, lengths, concurrency)[i] <= 0.0
           <==> Product(fit.slope, lengths[i] as real) + fit.intercept <= 0.0
      {
        QuotientSign(Product(fit.slope, lengths[i] as real) + fit.intercept, concurrency as real);
      }
    }
  }

  lemma QuotientSign(x: real, c: real)
    requires c > 0.0
    ensures x / c <= 0.0 <==> x <= 0.0
  {
    var q := x / c;
    assert q * c == x;
  }

  lemma MeanTimesCount(total: real, n: real)
    requires n > 0.0
    ensures Product(total / n, n) == total
  {
  }

  /** The moments are means over the outputs, the load is rate times mean, and a wait exists iff it is below one. */
  lemma MomentsAreMeans(lengths: seq<int>, rate: real, fit: Fit, concurrency: int, times: seq<real>)
    requires EstimateWait(lengths, rate, fit, concurrency).Success? && Serves(fit, lengths, concurrency, times)
    ensures var e, n := EstimateWait(lengths, rate, fit, concurrency).value, |lengths| as real;
            && e.rate == rate && e.concurrency == concurrency
            && Product(e.mean, n) == Sum(times) && Product(e.secondMoment, n) == SumOfSquares(times)
            && e.utilization == Product(rate, e.mean) && (e.wait.Some? <==> Product(rate, e.mean) < 1.0)
            && e.mean > 0.0
  {
    TimesAreServed(fit, lengths, concurrency, times);
    MeanTimesCount(Sum(times), |lengths| as real);
    MeanTimesCount(SumOfSquares(times), |lengths| as real);
    PositiveSum(times);
    PositiveMean(Sum(times), |lengths| as real);
  }

  lemma PositiveMean(total: real, n: real)
    requires total > 0.0 && n > 0.0
    ensures total / n > 0.0
  {
    var q := total / n;
    assert q * n == total;
  }

  lemma {:induction false} PositiveSum(times: seq<real>)
    requires |times| > 0 && forall i :: 0 <= i < |times| ==> times[i] > 0.0
    ensures Sum(times) > 0.0
  {
    if |times| > 1 {
      PositiveSum(times[..|times| - 1]);
    } else {
      assert Sum(times[..0]) == 0.0;
    }
  }

  lemma BalanceOf(rate: real, mean: real, second: real, wait: real)
    requires mean > 0.0 && Product(rate, mean) < 1.0
    requires wait == Product(rate, second) / (2.0 * (1.0 - Product(rate, mean)))
    ensures wait == Product(Product(rate, mean), wait + second / (2.0 * mean))
  {
    var load, rest := Product(rate, mean), second / (2.0 * mean);
    var d := 2.0 * (1.0 - load);
    assert wait * d == rate * second;
    assert rest * (2.0 * mean) == second;
    LoadOfRest(rate, mean, second, rest);
    assert wait - load * wait == load * rest by { Halves(wait, load, rate * second, load * rest); }
  }

  lemma LoadOfRest(rate: real, mean: real, second: real, rest: real)
    requires rest * (2.0 * mean) == second
    ensures 2.0 * (Product(rate, mean) * rest) == rate * second
  {
    assert rate * second == rate * (rest * (2.0 * mean));
  }

  lemma Halves(wait: real, load: real, x: real, y: real)
    requires wait * (2.0 * (1.0 - load)) == x && 2.0 * y == x
    ensures wait - load * wait == y
  {
    assert wait * (2.0 * (1.0 - load)) == 2.0 * (wait - load * wait);
  }

  /**
   The balance of a stable queue: an arrival waits, with the probability that the server is busy, for the mean wait of
   those before it and the mean rest of the service it finds, secondMoment / (2 * mean).
  */
  lemma ArrivalSeesBalance(lengths: seq<int>, rate: real, fit: Fit, concurrency: int, times: seq<real>)
    requires EstimateWait(lengths, rate, fit, concurrency).Success? && Serves(fit, lengths, concurrency, times)
    ensures var e := EstimateWait(lengths, rate, fit, concurrency).value;
            e.mean > 0.0
            && (e.wait.Some? ==>
                  e.wait.value == Product(e.utilization, e.wait.value + e.secondMoment / (2.0 * e.mean)))
  {
    var e := EstimateWait(lengths, rate, fit, concurrency).value;
    MomentsAreMeans(lengths, rate, fit, concurrency, times);
    if e.wait.Some? {
      BalanceOf(rate, e.mean, e.secondMoment, e.wait.value);
    }
  }

  lemma {:induction false} EqualTimes(times: seq<real>, s: real)
    requires forall i :: 0 <= i < |times| ==> times[i] == s
    ensures Sum(times) == Product(|times| as real, s) && SumOfSquares(times) == Product(|times| as real, Product(s, s))
  {
    if |times| == 0 {
      assert Product(0.0, s) == 0.0 && Product(0.0, Product(s, s)) == 0.0;
    } else {
      EqualTimes(times[..|times| - 1], s);
      Distribute((|times| - 1) as real, 1.0, s);
      Distribute((|times| - 1) as real, 1.0, Product(s, s));
      assert (|times| - 1) as real + 1.0 == |times| as real;
    }
  }

  lemma Cancels(x: real, y: real, n: real)
    requires n > 0.0 && Product(x, n) == Product(n, y)
    ensures x == y
  {
  }

  /** When every output takes the same time s, a stable queue makes an arrival wait load * s / (2 * (1 - load)). */
  lemma EqualServiceWait(lengths: seq<int>, rate: real, fit: Fit, concurrency: int, times: seq<real>, s: real)
    requires EstimateWait(lengths, rate, fit, concurrency).Success? && Serves(fit, lengths, concurrency, times)
    requires forall i :: 0 <= i < |times| ==> times[i] == s
    ensures var e := EstimateWait(lengths, rate, fit, concurrency).value;
            && e.mean == s && e.utilization == Product(rate, s)
            && (e.wait.Some? ==> Product(e.wait.value, 2.0 * (1.0 - e.utilization)) == Product(e.utilization, s))
  {
    var e := EstimateWait(lengths, rate, fit, concurrency).value;
    MomentsAreMeans(lengths, rate, fit, concurrency, times);
    EqualTimes(times, s);
    Cancels(e.mean, s, |times| as real);
    Cancels(e.secondMoment, Product(s, s), |times| as real);
    if e.wait.Some? {
      Regroups(rate, s);
      MeanTimesCount(Product(rate, e.secondMoment), 2.0 * (1.0 - e.utilization));
    }
  }

  lemma Regroups(rate: real, s: real)
    ensures Product(rate, Product(s, s)) == Product(Product(rate, s), s)
  {
  }
}
