/** The single-server mean-wait estimate (Pollaczek-Khinchine) over one sample of output lengths. */
module MeanWait {
  import opened Arithmetic
  import opened ServiceFit
  import opened Wrappers

  datatype EstimateError = NoLengths | RateNotPositive | NoServer | LengthNotPositive | ServiceNotPositive

  datatype Estimate = Estimate(rate: real, concurrency: int, mean: real, secondMoment: real, utilization: real,
      wait: Option<real>)

  function ServiceTime(fit: Fit, length: int, concurrency: int): real
    requires concurrency >= 1
  {
    (Product(fit.slope, length as real) + fit.intercept) / concurrency as real
  }

  function ServiceTimes(fit: Fit, lengths: seq<int>, concurrency: int): seq<real>
    requires concurrency >= 1
  {
    seq(|lengths|, i requires 0 <= i < |lengths| => ServiceTime(fit, lengths[i], concurrency))
  }

  function SumOfSquares(xs: seq<real>): real {
    if |xs| == 0 then 0.0 else SumOfSquares(xs[..|xs| - 1]) + Product(xs[|xs| - 1], xs[|xs| - 1])
  }

  /** Mean time in queue of an M/G/1 server with load below one. */
  function Wait(rate: real, secondMoment: real, utilization: real): real
    requires utilization < 1.0
  {
    Product(rate, secondMoment) / (2.0 * (1.0 - utilization))
  }

  function EstimateWait(lengths: seq<int>, rate: real, fit: Fit, concurrency: int): Result<Estimate, EstimateError> {
    if |lengths| == 0 then Failure(NoLengths)
    else if rate <= 0.0 then Failure(RateNotPositive)
    else if concurrency < 1 then Failure(NoServer)
    else if exists i :: 0 <= i < |lengths| && lengths[i] < 1 then Failure(LengthNotPositive)
    else
      var times := ServiceTimes(fit, lengths, concurrency);
      if exists i :: 0 <= i < |times| && times[i] <= 0.0 then Failure(ServiceNotPositive)
      else
        var mean, second := Sum(times) / |times| as real, SumOfSquares(times) / |times| as real;
        var utilization := Product(rate, mean);
        var wait := if utilization < 1.0 then Some(Wait(rate, second, utilization)) else None;
        Success(Estimate(rate, concurrency, mean, second, utilization, wait))
  }

  // ---------------------------------------------------------------- shorter outputs never hurt

  lemma ServiceTimeGrows(fit: Fit, a: int, b: int, concurrency: int)
    requires fit.slope >= 0.0 && a <= b && concurrency >= 1
    ensures ServiceTime(fit, a, concurrency) <= ServiceTime(fit, b, concurrency)
  {
    ProductGrows(fit.slope, a as real, b as real);
    QuotientGrows(Product(fit.slope, a as real) + fit.intercept, Product(fit.slope, b as real) + fit.intercept,
        concurrency as real);
  }

  lemma SquareGrows(x: real, y: real)
    requires 0.0 < x <= y
    ensures Product(x, x) <= Product(y, y)
  {
    ProductGrows(x, x, y);
    ProductGrows(y, x, y);
  }

  lemma {:induction false} SumOfSquaresGrows(xs: seq<real>, ys: seq<real>)
    requires |xs| == |ys| && forall i :: 0 <= i < |xs| ==> 0.0 < xs[i] <= ys[i]
    ensures 0.0 <= SumOfSquares(xs) <= SumOfSquares(ys)
  {
    if |xs| > 0 {
      var n := |xs| - 1;
      SumOfSquaresGrows(xs[..n], ys[..n]);
      SquareGrows(xs[n], ys[n]);
      SquareIsNonNegative(xs[n]);
    }
  }

  lemma WaitGrows(rate: real, second: real, second': real, load: real, load': real)
    requires rate > 0.0 && 0.0 <= second' <= second && load' <= load < 1.0
    ensures 0.0 <= Wait(rate, second', load') <= Wait(rate, second, load)
  {
    ProductGrows(rate, second', second);
    ProductGrows(rate, 0.0, second');
    assert Product(rate, 0.0) == 0.0;
    FractionGrows(Product(rate, second'), Product(rate, second), 2.0 * (1.0 - load'), 2.0 * (1.0 - load));
  }

  lemma FractionGrows(n': real, n: real, d': real, d: real)
    requires 0.0 <= n' <= n && 0.0 < d <= d'
    ensures 0.0 <= n' / d' <= n / d
  {
    QuotientGrows(n', n, d);
    var q := n' / d;
    assert q >= 0.0;
    ProductGrows(q, d, d');
    assert Product(q, d) == n';
    QuotientGrows(n', Product(q, d'), d');
    assert Product(q, d') / d' == q;
  }

  /** With a non-negative slope, pointwise shorter outputs raise no statistic of the estimate. */
  lemma ShorterNeverHurts(lengths: seq<int>, shorter: seq<int>, rate: real, fit: Fit, concurrency: int)
    requires |shorter| == |lengths| && forall i :: 0 <= i < |lengths| ==> shorter[i] <= lengths[i]
    requires fit.slope >= 0.0
    requires EstimateWait(lengths, rate, fit, concurrency).Success?
        && EstimateWait(shorter, rate, fit, concurrency).Success?
    ensures var e, e' := EstimateWait(lengths, rate, fit, concurrency).value,
        EstimateWait(shorter, rate, fit, concurrency).value;
            && e'.mean <= e.mean && e'.secondMoment <= e.secondMoment && e'.utilization <= e.utilization
            && (e.wait.Some? ==> e'.wait.Some? && 0.0 <= e'.wait.value <= e.wait.value)
  {
    var n := |lengths| as real;
    var times, times' := ServiceTimes(fit, lengths, concurrency), ServiceTimes(fit, shorter, concurrency);
    forall i | 0 <= i < |times| ensures 0.0 < times'[i] <= times[i] {
      ServiceTimeGrows(fit, shorter[i], lengths[i], concurrency);
    }
    SumGrows(times', times);
    SumOfSquaresGrows(times', times);
    QuotientGrows(Sum(times'), Sum(times), n);
    QuotientGrows(SumOfSquares(times'), SumOfSquares(times), n);
    QuotientGrows(0.0, SumOfSquares(times'), n);
    var e, e' := EstimateWait(lengths, rate, fit, concurrency).value,
        EstimateWait(shorter, rate, fit, concurrency).value;
    ProductGrows(rate, e'.mean, e.mean);
    if e.wait.Some? {
      WaitGrows(rate, e.secondMoment, e'.secondMoment, e.utilization, e'.utilization);
    }
  }

  // ---------------------------------------------------------------- capping cuts the second moment hardest

  function Min(x: real, y: real): real {
    if x <= y then x else y
  }

  /** Every output cut at the cap. */
  function Capped(lengths: seq<int>, cap: int): seq<int> {
    seq(|lengths|, i requires 0 <= i < |lengths| => if lengths[i] <= cap then lengths[i] else cap)
  }

  ghost predicate CutAt(times: seq<real>, cut: seq<real>, at: real) {
    |cut| == |times| && forall i :: 0 <= i < |times| ==> 0.0 < cut[i] <= times[i] && cut[i] == Min(times[i], at)
  }

  lemma PairCut(s: real, s': real, at: real)
    requires 0.0 < s && 0.0 < s' && 0.0 < Min(s, at) && 0.0 < Min(s', at)
    ensures var t, t' := Min(s, at), Min(s', at);
            Product(Product(t, t), s') + Product(Product(t', t'), s)
                <= Product(Product(s, s), t') + Product(Product(s', s'), t)
  {
    if s <= at && s' <= at {
    } else if s <= at {
      PairOne(s, s', at);
    } else if s' <= at {
      PairOne(s', s, at);
    } else {
      CutOnce(s, at);
      CutOnce(s', at);
    }
  }

  /** Only the longer service time is cut. */
  lemma PairOne(s: real, s': real, at: real)
    requires 0.0 < s <= at < s'
    ensures Product(Product(s, s), s') + Product(Product(at, at), s)
        <= Product(Product(s, s), at) + Product(Product(s', s'), s)
  {
    var d := s' - at;
    assert s * s * s' == s * s * at + s * s * d;
    assert s' * s' * s == at * at * s + 2.0 * at * d * s + d * d * s;
    SquareIsNonNegative(d);
    ProductGrows(s, 0.0, Product(d, d));
    ScaledSign(s, d);
    ProductGrows(Product(s, d), s, 2.0 * at);
  }

  lemma CutOnce(s: real, at: real)
    requires 0.0 < at <= s
    ensures Product(Product(at, at), s) <= Product(Product(s, s), at)
  {
    SameSign(at, s);
    ProductGrows(Product(at, s), at, s);
    assert at * at * s == at * s * at && s * s * at == at * s * s;
  }

  lemma {:induction false} CrossCut(times: seq<real>, cut: seq<real>, at: real, s: real)
    requires CutAt(times, cut, at) && 0.0 < s && 0.0 < Min(s, at)
    ensures var t := Min(s, at);
            Product(SumOfSquares(cut), s) + Product(Product(t, t), Sum(times))
                <= Product(SumOfSquares(times), t) + Product(Product(s, s), Sum(cut))
  {
    var n, t := |times| - 1, Min(s, at);
    if |times| == 0 {
      assert Product(0.0, s) == Product(Product(t, t), 0.0) == Product(0.0, t) == Product(Product(s, s), 0.0) == 0.0;
    } else {
      CrossCut(times[..n], cut[..n], at, s);
      PairCut(s, times[n], at);
      Distribute(SumOfSquares(cut[..n]), Product(cut[n], cut[n]), s);
      Distribute(Sum(times[..n]), times[n], Product(t, t));
      Distribute(SumOfSquares(times[..n]), Product(times[n], times[n]), t);
      Distribute(Sum(cut[..n]), cut[n], Product(s, s));
    }
  }

  /** Cutting at one level divides the sum of squares by at least as much as the sum. */
  lemma {:induction false} CutRatio(times: seq<real>, cut: seq<real>, at: real)
    requires CutAt(times, cut, at)
    ensures Product(SumOfSquares(cut), Sum(times)) <= Product(SumOfSquares(times), Sum(cut))
  {
    var n := |times| - 1;
    if |times| == 0 {
    } else {
      var a, b, c, d := Sum(times[..n]), Sum(cut[..n]), SumOfSquares(times[..n]), SumOfSquares(cut[..n]);
      var s, t := times[n], cut[n];
      CutRatio(times[..n], cut[..n], at);
      CrossCut(times[..n], cut[..n], at, s);
      CutOnce(s, t);
      Expand(d, Product(t, t), a, s);
      Expand(c, Product(s, s), b, t);
    }
  }

  lemma Expand(x: real, dx: real, y: real, dy: real)
    ensures Product(x + dx, y + dy) == Product(x, y) + Product(x, dy) + Product(dx, y) + Product(dx, dy)
  {
  }

  lemma RatioOfMeans(a: real, b: real, c: real, d: real, n: real)
    requires n > 0.0 && Product(d, a) <= Product(c, b)
    ensures Product(d / n, a / n) <= Product(c / n, b / n)
  {
    SameSign(n, n);
    MeanProduct(d, a, n);
    MeanProduct(c, b, n);
    QuotientGrows(Product(d, a), Product(c, b), Product(n, n));
  }

  lemma MeanProduct(x: real, y: real, n: real)
    requires n > 0.0 && Product(n, n) > 0.0
    ensures Product(x / n, y / n) == Product(x, y) / Product(n, n)
  {
    var p, q := x / n, y / n;
    assert x == p * n && y == q * n;
    Regroup(p, q, n);
  }

  lemma Regroup(p: real, q: real, n: real)
    ensures (p * n) * (q * n) == p * q * (n * n)
  {
  }

  lemma CappedTimesAreCut(lengths: seq<int>, cap: int, fit: Fit, concurrency: int)
    requires fit.slope >= 0.0 && concurrency >= 1
    requires var cut := ServiceTimes(fit, Capped(lengths, cap), concurrency);
             forall i :: 0 <= i < |cut| ==> cut[i] > 0.0
    ensures CutAt(ServiceTimes(fit, lengths, concurrency), ServiceTimes(fit, Capped(lengths, cap), concurrency),
        ServiceTime(fit, cap, concurrency))
  {
    forall i | 0 <= i < |lengths|
      ensures ServiceTime(fit, Capped(lengths, cap)[i], concurrency)
          == Min(ServiceTime(fit, lengths[i], concurrency), ServiceTime(fit, cap, concurrency))
    {
      if lengths[i] <= cap {
        ServiceTimeGrows(fit, lengths[i], cap, concurrency);
      } else {
        ServiceTimeGrows(fit, cap, lengths[i], concurrency);
      }
    }
  }

  /** A cap on every output divides the second moment by at least as much as the mean. */
  lemma CapCutsSecondMomentHardest(lengths: seq<int>, cap: int, rate: real, fit: Fit, concurrency: int)
    requires fit.slope >= 0.0
    requires EstimateWait(lengths, rate, fit, concurrency).Success?
    requires EstimateWait(Capped(lengths, cap), rate, fit, concurrency).Success?
    ensures var e, e' := EstimateWait(lengths, rate, fit, concurrency).value,
        EstimateWait(Capped(lengths, cap), rate, fit, concurrency).value;
            Product(e'.secondMoment, e.mean) <= Product(e.secondMoment, e'.mean)
  {
    var times, cut := ServiceTimes(fit, lengths, concurrency), ServiceTimes(fit, Capped(lengths, cap), concurrency);
    CappedTimesAreCut(lengths, cap, fit, concurrency);
    CutRatio(times, cut, ServiceTime(fit, cap, concurrency));
    RatioOfMeans(Sum(times), Sum(cut), SumOfSquares(times), SumOfSquares(cut), |lengths| as real);
  }

  lemma ScaleBoth(rate: real, d: real, x: real, y: real, m: real, m': real)
    requires rate > 0.0 && d > 0.0 && Product(x, m) <= Product(y, m')
    ensures Product(Product(rate, x) / d, m) <= Product(Product(rate, y) / d, m')
  {
    var k := rate / d;
    QuotientGrows(0.0, rate, d);
    assert Product(rate, x) / d == k * x && Product(rate, y) / d == k * y;
    ProductGrows(k, Product(x, m), Product(y, m'));
    assert k * x * m == k * (x * m) && k * y * m' == k * (y * m');
  }

  /** When the uncapped queue is stable, a cap divides the mean wait by at least as much as the mean service time. */
  lemma CapCutsWaitAtLeastAsMuch(lengths: seq<int>, cap: int, rate: real, fit: Fit, concurrency: int)
    requires fit.slope >= 0.0
    requires EstimateWait(lengths, rate, fit, concurrency).Success?
    requires EstimateWait(Capped(lengths, cap), rate, fit, concurrency).Success?
    ensures var e, e' := EstimateWait(lengths, rate, fit, concurrency).value,
        EstimateWait(Capped(lengths, cap), rate, fit, concurrency).value;
            e.wait.Some? ==> e'.wait.Some? && Product(e'.wait.value, e.mean) <= Product(e.wait.value, e'.mean)
  {
    var e, e' := EstimateWait(lengths, rate, fit, concurrency).value,
        EstimateWait(Capped(lengths, cap), rate, fit, concurrency).value;
    ShorterNeverHurts(lengths, Capped(lengths, cap), rate, fit, concurrency);
    if e.wait.Some? {
      CapCutsSecondMomentHardest(lengths, cap, rate, fit, concurrency);
      SecondMomentSign(Capped(lengths, cap), rate, fit, concurrency);
      WaitGrows(rate, e'.secondMoment, e'.secondMoment, e.utilization, e'.utilization);
      ProductGrows(e.mean, e'.wait.value, Wait(rate, e'.secondMoment, e.utilization));
      ScaleBoth(rate, 2.0 * (1.0 - e.utilization), e'.secondMoment, e.secondMoment, e.mean, e'.mean);
    }
  }

  lemma SecondMomentSign(lengths: seq<int>, rate: real, fit: Fit, concurrency: int)
    requires EstimateWait(lengths, rate, fit, concurrency).Success?
    ensures EstimateWait(lengths, rate, fit, concurrency).value.secondMoment >= 0.0
    ensures EstimateWait(lengths, rate, fit, concurrency).value.mean >= 0.0
  {
    var times := ServiceTimes(fit, lengths, concurrency);
    SumOfSquaresGrows(times, times);
    SumGrows(seq(|times|, _ => 0.0), times);
    SumOfZeros(|times|);
    QuotientGrows(0.0, SumOfSquares(times), |times| as real);
    QuotientGrows(0.0, Sum(times), |times| as real);
  }

  lemma {:induction false} SumOfZeros(n: nat)
    ensures Sum(seq(n, _ => 0.0)) == 0.0
  {
    if n > 0 {
      SumOfZeros(n - 1);
      assert seq(n, _ => 0.0)[..n - 1] == seq(n - 1, _ => 0.0);
    }
  }
}
