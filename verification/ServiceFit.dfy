/** Ordinary least squares of backend service time against output tokens. */
module ServiceFit {
  import opened Arithmetic
  import opened Wrappers

  /** The parts of a request record that the fit reads. */
  datatype Observation = Observation(success: bool, dispatch: Option<real>, completion: real, outputTokens: int)

  datatype Sample = Sample(tokens: real, service: real)

  datatype Fit = Fit(slope: real, intercept: real, rSquared: real, count: nat)

  datatype FitError = TooFewSamples | OneLengthOnly

  /** Successful, dispatched, non-empty outputs. */
  function Samples(records: seq<Observation>): seq<Sample> {
    if |records| == 0 then []
    else
      var before, r := Samples(records[..|records| - 1]), records[|records| - 1];
      if r.success && r.dispatch.Some? && r.outputTokens > 0 then
        before + [Sample(r.outputTokens as real, r.completion - r.dispatch.value)]
      else before
  }

  predicate OneLength(s: seq<Sample>) {
    forall i :: 0 <= i < |s| ==> s[i].tokens == s[0].tokens
  }

  function TotalTokens(s: seq<Sample>): real {
    if |s| == 0 then 0.0 else TotalTokens(s[..|s| - 1]) + s[|s| - 1].tokens
  }

  function TotalService(s: seq<Sample>): real {
    if |s| == 0 then 0.0 else TotalService(s[..|s| - 1]) + s[|s| - 1].service
  }

  /** Squared deviations of the tokens from x. */
  function TokenSpread(s: seq<Sample>, x: real): real {
    if |s| == 0 then 0.0
    else TokenSpread(s[..|s| - 1], x) + Product(s[|s| - 1].tokens - x, s[|s| - 1].tokens - x)
  }

  function ServiceSpread(s: seq<Sample>, y: real): real {
    if |s| == 0 then 0.0
    else ServiceSpread(s[..|s| - 1], y) + Product(s[|s| - 1].service - y, s[|s| - 1].service - y)
  }

  function Covariation(s: seq<Sample>, x: real, y: real): real {
    if |s| == 0 then 0.0
    else Covariation(s[..|s| - 1], x, y) + Product(s[|s| - 1].tokens - x, s[|s| - 1].service - y)
  }

  function Residual(s: Sample, slope: real, intercept: real): real {
    s.service - (Product(slope, s.tokens) + intercept)
  }

  /** The squared error of the line over the samples. */
  function Loss(s: seq<Sample>, slope: real, intercept: real): real {
    if |s| == 0 then 0.0
    else
      var e := Residual(s[|s| - 1], slope, intercept);
      Loss(s[..|s| - 1], slope, intercept) + Product(e, e)
  }

  function FitLinear(records: seq<Observation>): (r: Result<Fit, FitError>)
    ensures r.Success? <==> |Samples(records)| >= 2 && !OneLength(Samples(records))
    ensures r.Failure? ==> r.error == if |Samples(records)| < 2 then TooFewSamples else OneLengthOnly
  {
    var s := Samples(records);
    if |s| < 2 then Failure(TooFewSamples)
    else if OneLength(s) then Failure(OneLengthOnly)
    else
      var x, y := TotalTokens(s) / |s| as real, TotalService(s) / |s| as real;
      SpreadIsPositive(s, x);
      var slope := Covariation(s, x, y) / TokenSpread(s, x);
      var intercept := y - Product(slope, x);
      var total := ServiceSpread(s, y);
      var rSquared := if total > 0.0 then 1.0 - Loss(s, slope, intercept) / total else 1.0;
      Success(Fit(slope, intercept, rSquared, |s|))
  }

  // ---------------------------------------------------------------- moments

  lemma {:induction false} SpreadsAreNonNegative(s: seq<Sample>, x: real, y: real)
    ensures TokenSpread(s, x) >= 0.0 && ServiceSpread(s, y) >= 0.0
  {
    if |s| > 0 {
      SpreadsAreNonNegative(s[..|s| - 1], x, y);
      SquareIsNonNegative(s[|s| - 1].tokens - x);
      SquareIsNonNegative(s[|s| - 1].service - y);
    }
  }

  lemma {:induction false} LossIsNonNegative(s: seq<Sample>, slope: real, intercept: real)
    ensures Loss(s, slope, intercept) >= 0.0
  {
    if |s| > 0 {
      LossIsNonNegative(s[..|s| - 1], slope, intercept);
      SquareIsNonNegative(Residual(s[|s| - 1], slope, intercept));
    }
  }

  lemma {:induction false} OffCentreSpreads(s: seq<Sample>, x: real, i: nat)
    requires i < |s| && s[i].tokens != x
    ensures TokenSpread(s, x) > 0.0
  {
    SquareIsNonNegative(s[|s| - 1].tokens - x);
    if i < |s| - 1 {
      OffCentreSpreads(s[..|s| - 1], x, i);
    } else {
      SpreadsAreNonNegative(s[..|s| - 1], x, 0.0);
    }
  }

  lemma SpreadIsPositive(s: seq<Sample>, x: real)
    requires !OneLength(s)
    ensures TokenSpread(s, x) > 0.0
  {
    var i :| 0 <= i < |s| && s[i].tokens != s[0].tokens;
    if s[0].tokens != x {
      OffCentreSpreads(s, x, 0);
    } else {
      OffCentreSpreads(s, x, i);
    }
  }

  /** One sample's squared error, expanded around the centre (x, y). */
  lemma ErrorExpands(u: real, v: real, a: real, k: real, e: real)
    requires e == v - a * u - k
    ensures e * e == v * v - 2.0 * a * (u * v) + a * a * (u * u) + k * k - 2.0 * k * v + 2.0 * a * k * u
  {
    assert e * e == (v - a * u - k) * (v - a * u - k);
  }

  /** The value of a line's squared error in terms of the moments around (x, y). */
  function Expanded(a: real, k: real, n: real, xx: real, xy: real, yy: real, u: real, v: real): real {
    yy - 2.0 * Product(a, xy) + Product(Product(a, a), xx) + Product(n, Product(k, k)) - 2.0 * Product(k, v)
        + 2.0 * Product(Product(a, k), u)
  }

  lemma ExpandedAdds(a: real, k: real, n: real, xx: real, xy: real, yy: real, u: real, v: real, du: real, dv: real,
      e: real)
    requires e == dv - Product(a, du) - k
    ensures Expanded(a, k, n + 1.0, xx + Product(du, du), xy + Product(du, dv), yy + Product(dv, dv), u + du, v + dv)
         == Expanded(a, k, n, xx, xy, yy, u, v) + Product(e, e)
  {
    ErrorExpands(du, dv, a, k, e);
  }

  /** The deviations from the centre, added up. */
  function TokenTilt(s: seq<Sample>, x: real): real {
    if |s| == 0 then 0.0 else TokenTilt(s[..|s| - 1], x) + (s[|s| - 1].tokens - x)
  }

  function ServiceTilt(s: seq<Sample>, y: real): real {
    if |s| == 0 then 0.0 else ServiceTilt(s[..|s| - 1], y) + (s[|s| - 1].service - y)
  }

  lemma {:induction false} LossExpands(s: seq<Sample>, a: real, c: real, x: real, y: real, k: real)
    requires k == c + Product(a, x) - y
    ensures Loss(s, a, c) == Expanded(a, k, |s| as real, TokenSpread(s, x), Covariation(s, x, y),
                                      ServiceSpread(s, y), TokenTilt(s, x), ServiceTilt(s, y))
  {
    if |s| > 0 {
      var before, last := s[..|s| - 1], s[|s| - 1];
      LossExpands(before, a, c, x, y, k);
      var e := Residual(last, a, c);
      Recentre(last.tokens, last.service, a, c, x, y);
      ExpandedAdds(a, k, |before| as real, TokenSpread(before, x), Covariation(before, x, y),
                   ServiceSpread(before, y), TokenTilt(before, x), ServiceTilt(before, y),
                   last.tokens - x, last.service - y, e);
      assert |before| as real + 1.0 == |s| as real;
    }
  }

  lemma Recentre(t: real, v: real, a: real, c: real, x: real, y: real)
    ensures v - (Product(a, t) + c) == (v - y) - Product(a, t - x) - (c + Product(a, x) - y)
  {
  }

  lemma {:induction false} TiltsAreTotals(s: seq<Sample>, x: real, y: real)
    ensures TokenTilt(s, x) == TotalTokens(s) - Product(|s| as real, x)
    ensures ServiceTilt(s, y) == TotalService(s) - Product(|s| as real, y)
  {
    if |s| > 0 {
      TiltsAreTotals(s[..|s| - 1], x, y);
      Distribute((|s| - 1) as real, 1.0, x);
      Distribute((|s| - 1) as real, 1.0, y);
    }
  }

  lemma MeanCancels(n: real, total: real)
    requires n > 0.0
    ensures total - Product(n, total / n) == 0.0
  {
  }

  lemma TiltsVanish(s: seq<Sample>, x: real, y: real)
    requires |s| > 0 && x == TotalTokens(s) / |s| as real && y == TotalService(s) / |s| as real
    ensures TokenTilt(s, x) == 0.0 && ServiceTilt(s, y) == 0.0
  {
    TiltsAreTotals(s, x, y);
    MeanCancels(|s| as real, TotalTokens(s));
    MeanCancels(|s| as real, TotalService(s));
  }

  // ---------------------------------------------------------------- the fitted line is the best line

  /** Around its best slope, a quadratic with zero tilts grows by the spread and by the offset. */
  lemma CompleteSquare(a: real, k: real, n: real, xx: real, xy: real, yy: real, best: real)
    requires xx > 0.0 && best == xy / xx
    ensures Expanded(a, k, n, xx, xy, yy, 0.0, 0.0)
         == Expanded(best, 0.0, n, xx, xy, yy, 0.0, 0.0) + Product(xx, Product(a - best, a - best))
             + Product(n, Product(k, k))
    ensures Expanded(best, 0.0, n, xx, xy, yy, 0.0, 0.0) == yy - Product(best, xy)
  {
    assert xy == best * xx;
    assert best * best * xx == best * xy;
    assert a * xy == a * best * xx;
  }

  /** How much worse any line is than the fitted one. */
  function Excess(s: seq<Sample>, fit: Fit, slope: real, intercept: real): real
    requires |s| > 0
  {
    var x := TotalTokens(s) / |s| as real;
    var shift := intercept - fit.intercept + Product(slope - fit.slope, x);
    Product(TokenSpread(s, x), Product(slope - fit.slope, slope - fit.slope))
        + Product(|s| as real, Product(shift, shift))
  }

  /** The squared error of any line is the fitted line's plus two squares that vanish only at the fit. */
  lemma LossIsLeastPlusExcess(records: seq<Observation>, slope: real, intercept: real)
    requires FitLinear(records).Success?
    ensures var s, f := Samples(records), FitLinear(records).value;
            Loss(s, slope, intercept) == Loss(s, f.slope, f.intercept) + Excess(s, f, slope, intercept)
  {
    var s, f := Samples(records), FitLinear(records).value;
    var n := |s| as real;
    var x, y := TotalTokens(s) / n, TotalService(s) / n;
    var xx, xy, yy := TokenSpread(s, x), Covariation(s, x, y), ServiceSpread(s, y);
    SpreadIsPositive(s, x);
    TiltsVanish(s, x, y);
    var k := intercept + Product(slope, x) - y;
    LossExpands(s, slope, intercept, x, y, k);
    LossExpands(s, f.slope, f.intercept, x, y, 0.0);
    CompleteSquare(slope, k, n, xx, xy, yy, f.slope);
    Shift(slope, intercept, f.slope, f.intercept, x, y);
  }

  lemma Shift(a: real, c: real, a0: real, c0: real, x: real, y: real)
    requires c0 == y - Product(a0, x)
    ensures c + Product(a, x) - y == c - c0 + Product(a - a0, x)
  {
  }

  lemma ExcessSign(s: seq<Sample>, f: Fit, slope: real, intercept: real)
    requires |s| > 0 && TokenSpread(s, TotalTokens(s) / |s| as real) > 0.0
    ensures Excess(s, f, slope, intercept) >= 0.0
    ensures Excess(s, f, slope, intercept) == 0.0 ==> slope == f.slope && intercept == f.intercept
  {
    var n := |s| as real;
    var x := TotalTokens(s) / n;
    var tilt := slope - f.slope;
    var shift := intercept - f.intercept + Product(tilt, x);
    SquareIsNonNegative(tilt);
    SquareIsNonNegative(shift);
    ScaledSign(TokenSpread(s, x), Product(tilt, tilt));
    ScaledSign(n, Product(shift, shift));
    assert Product(0.0, x) == 0.0;
  }

  /** No line beats the fit, and only the fit itself ties with it. */
  lemma FitIsLeastSquares(records: seq<Observation>, slope: real, intercept: real)
    requires FitLinear(records).Success?
    ensures var s, f := Samples(records), FitLinear(records).value;
            && Loss(s, f.slope, f.intercept) <= Loss(s, slope, intercept)
            && (Loss(s, f.slope, f.intercept) == Loss(s, slope, intercept) ==>
                slope == f.slope && intercept == f.intercept)
  {
    var s, f := Samples(records), FitLinear(records).value;
    LossIsLeastPlusExcess(records, slope, intercept);
    SpreadIsPositive(s, TotalTokens(s) / |s| as real);
    ExcessSign(s, f, slope, intercept);
  }

  /** The coefficient of determination is a share: one exactly when the line passes through every sample. */
  lemma RSquaredIsAShare(records: seq<Observation>)
    requires FitLinear(records).Success?
    ensures var s, f := Samples(records), FitLinear(records).value;
            && 0.0 <= f.rSquared <= 1.0
            && (f.rSquared == 1.0 <==> Loss(s, f.slope, f.intercept) == 0.0)
  {
    var s, f := Samples(records), FitLinear(records).value;
    var y := TotalService(s) / |s| as real;
    var total, least := ServiceSpread(s, y), Loss(s, f.slope, f.intercept);
    FlatLoss(s, y);
    FitIsLeastSquares(records, 0.0, y);
    LossIsNonNegative(s, f.slope, f.intercept);
    SpreadsAreNonNegative(s, 0.0, y);
    if total > 0.0 {
      ShareOf(least, total);
    }
  }

  lemma ShareOf(part: real, whole: real)
    requires 0.0 <= part <= whole && whole > 0.0
    ensures 0.0 <= part / whole <= 1.0 && (part / whole == 0.0 <==> part == 0.0)
  {
  }

  lemma {:induction false} FlatLoss(s: seq<Sample>, y: real)
    ensures Loss(s, 0.0, y) == ServiceSpread(s, y)
  {
    if |s| > 0 {
      FlatLoss(s[..|s| - 1], y);
    }
  }
}
