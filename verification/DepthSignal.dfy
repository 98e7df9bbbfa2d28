/**
 The wall-clock weighted queue depth, and the controller as a whole: runs of `Observe` followed by the
 level machine. The decay exp(-t/tau) is a parameter constrained by the laws below.
*/
module DepthSignal {
  import opened Wrappers
  import opened AdaptiveClipping
  import opened Arithmetic
  import opened ControllerHistory

  /** The laws of exp(-t/tau) for non-negative t. */
  ghost predicate IsDecay(decay: real -> real) {
    && decay(0.0) == 1.0
    && (forall t :: t >= 0.0 ==> 0.0 < decay(t) <= 1.0)
    && (forall s, t :: s >= 0.0 && t >= 0.0 ==> Splits(decay, s, t))
  }

  ghost predicate Splits(decay: real -> real, s: real, t: real) {
    decay(s + t) == decay(s) * decay(t)
  }

  /** One call of update: the depth it reports and the clock reading it takes. */
  datatype Report = Report(now: real, q: nat)

  ghost predicate Timely(reports: seq<Report>) {
    forall i, j :: 0 <= i <= j < |reports| ==> reports[i].now <= reports[j].now
  }

  function SignalAfter(decay: real -> real, reports: seq<Report>, k: nat): Signal
    requires k <= |reports|
  {
    if k == 0 then QUIET
    else Observe(decay, SignalAfter(decay, reports, k - 1), reports[k - 1].q, reports[k - 1].now)
  }

  function PressureAfter(decay: real -> real, reports: seq<Report>, k: nat): real
    requires k <= |reports|
  {
    Pressure(SignalAfter(decay, reports, k))
  }

  /** The updates the level machine sees. */
  function TicksUpTo(decay: real -> real, reports: seq<Report>, n: nat): (ticks: seq<Tick>)
    requires n <= |reports|
    ensures |ticks| == n
    ensures forall k :: 0 <= k < n ==> ticks[k].now == reports[k].now
  {
    if n == 0 then []
    else TicksUpTo(decay, reports, n - 1) + [Tick(reports[n - 1].now, PressureAfter(decay, reports, n))]
  }

  function Ticks(decay: real -> real, reports: seq<Report>): (ticks: seq<Tick>)
    ensures |ticks| == |reports|
    ensures forall k :: 0 <= k < |ticks| ==> ticks[k].now == reports[k].now
  {
    TicksUpTo(decay, reports, |reports|)
  }

  lemma {:induction false} TickUpTo(decay: real -> real, reports: seq<Report>, n: nat, k: nat)
    requires k < n <= |reports|
    ensures TicksUpTo(decay, reports, n)[k].p == PressureAfter(decay, reports, k + 1)
  {
    if k < n - 1 {
      TickUpTo(decay, reports, n - 1, k);
    }
  }

  lemma TickAt(decay: real -> real, reports: seq<Report>, k: nat)
    requires k < |reports|
    ensures Ticks(decay, reports)[k].p == PressureAfter(decay, reports, k + 1)
  {
    TickUpTo(decay, reports, |reports|, k);
  }

  /** After a first report the signal remembers the last report. */
  lemma SignalRemembers(decay: real -> real, reports: seq<Report>, k: nat)
    requires 0 < k <= |reports|
    ensures SignalAfter(decay, reports, k).last == Some(reports[k - 1].now)
    ensures SignalAfter(decay, reports, k).qInst == reports[k - 1].q
  {
  }

  // ---------------------------------------------------------------- averages

  lemma ProductSign(x: real, y: real)
    requires x >= 0.0 && y >= 0.0
    ensures x * y >= 0.0
  {
  }

  /** Weighted means grow with both of their values. */
  lemma MixGrows(d: real, x: real, x': real, y: real, y': real)
    requires 0.0 <= d <= 1.0 && x <= x' && y <= y'
    ensures Mix(d, x, y) <= Mix(d, x', y')
  {
    var e, dx, dy := 1.0 - d, x' - x, y' - y;
    ProductSign(d, dx);
    ProductSign(e, dy);
    assert Mix(d, x', y') == Mix(d, x, y) + d * dx + e * dy;
  }

  lemma MixOfSame(d: real, x: real)
    ensures Mix(d, x, x) == x
  {
  }

  /** Mixing in the same value twice multiplies the weights. */
  lemma MixTwice(d1: real, d2: real, x: real, c: real)
    ensures Mix(d2, Mix(d1, x, c), c) == Mix(d1 * d2, x, c)
  {
  }

  /** The average stays between zero and the largest depth seen. */
  lemma {:induction false} AverageIsBounded(decay: real -> real, reports: seq<Report>, k: nat, hi: nat)
    requires IsDecay(decay) && Timely(reports) && k <= |reports|
    requires forall i :: 0 <= i < k ==> reports[i].q <= hi
    ensures 0.0 <= SignalAfter(decay, reports, k).qBar <= hi as real
  {
    if k > 1 {
      AverageIsBounded(decay, reports, k - 1, hi);
      SignalRemembers(decay, reports, k - 1);
      var d, x, c := decay(reports[k - 1].now - reports[k - 2].now), SignalAfter(decay, reports, k - 1).qBar,
          reports[k - 2].q as real;
      MixGrows(d, 0.0, x, 0.0, c);
      MixGrows(d, x, hi as real, c, hi as real);
      MixOfSame(d, 0.0);
      MixOfSame(d, hi as real);
    }
  }

  // ---------------------------------------------------------------- the average in closed form

  /** The weight at time t of the depth that held from report i to report i+1. */
  function Weight(decay: real -> real, reports: seq<Report>, i: nat, t: real): real
    requires i + 1 < |reports|
  {
    decay(t - reports[i + 1].now) - decay(t - reports[i].now)
  }

  /** The first n depths, each weighted by how long ago and for how long it held. */
  function WeightedDepths(decay: real -> real, reports: seq<Report>, n: nat, t: real): real
    requires n == 0 || n < |reports|
  {
    if n == 0 then 0.0
    else
      WeightedDepths(decay, reports, n - 1, t) + Product(reports[n - 1].q as real, Weight(decay, reports, n - 1, t))
  }

  /** As time passes every weight shrinks by the same factor. */
  lemma WeightFades(decay: real -> real, reports: seq<Report>, i: nat, t: real, t': real)
    requires IsDecay(decay) && i + 1 < |reports| && reports[i].now <= reports[i + 1].now <= t <= t'
    ensures Weight(decay, reports, i, t') == Product(decay(t' - t), Weight(decay, reports, i, t))
  {
    var a, b := t - reports[i + 1].now, t - reports[i].now;
    assert Splits(decay, t' - t, a) && Splits(decay, t' - t, b);
    assert (t' - t) + a == t' - reports[i + 1].now && (t' - t) + b == t' - reports[i].now;
    Subtracts(decay(t' - t), decay(a), decay(b));
  }

  lemma Subtracts(x: real, a: real, b: real)
    ensures Product(x, a - b) == x * a - x * b
  {
  }

  lemma Reorders(x: real, y: real, z: real)
    ensures Product(x, Product(y, z)) == Product(y, Product(x, z))
  {
  }

  lemma {:induction false} DepthsFade(decay: real -> real, reports: seq<Report>, n: nat, t: real, t': real)
    requires IsDecay(decay) && Timely(reports) && (n == 0 || (n < |reports| && reports[n].now <= t)) && t <= t'
    ensures WeightedDepths(decay, reports, n, t') == Product(decay(t' - t), WeightedDepths(decay, reports, n, t))
  {
    if n > 0 {
      var d, q, w := decay(t' - t), reports[n - 1].q as real, Weight(decay, reports, n - 1, t);
      assert reports[n - 1].now <= reports[n].now;
      DepthsFade(decay, reports, n - 1, t, t');
      WeightFades(decay, reports, n - 1, t, t');
      Distribute(WeightedDepths(decay, reports, n - 1, t), Product(q, w), d);
      Reorders(q, d, w);
    }
  }

  /**
   After report k the average is the sum of all depths before it, each times decay(now - end) - decay(now - begin) of
   the time it held.
  */
  lemma {:induction false} AverageIsWeightedDepths(decay: real -> real, reports: seq<Report>, k: nat)
    requires IsDecay(decay) && Timely(reports) && k < |reports|
    ensures SignalAfter(decay, reports, k + 1).qBar == WeightedDepths(decay, reports, k, reports[k].now)
  {
    if k > 0 {
      var t, t', q := reports[k - 1].now, reports[k].now, reports[k - 1].q as real;
      AverageIsWeightedDepths(decay, reports, k - 1);
      SignalRemembers(decay, reports, k);
      DepthsFade(decay, reports, k - 1, t, t');
      assert Weight(decay, reports, k - 1, t') == 1.0 - decay(t' - t);
      MixAdds(decay(t' - t), SignalAfter(decay, reports, k).qBar, q);
    }
  }

  lemma MixAdds(d: real, x: real, y: real)
    ensures Mix(d, x, y) == Product(d, x) + Product(y, 1.0 - d)
  {
  }

  /** A depth held between two reports pulls the average towards it: the distance shrinks by exactly the decay. */
  lemma HeldDepthPulls(decay: real -> real, reports: seq<Report>, k: nat)
    requires 0 < k < |reports|
    ensures var q, elapsed := reports[k - 1].q as real, reports[k].now - reports[k - 1].now;
            SignalAfter(decay, reports, k + 1).qBar - q
              == decay(elapsed) * (SignalAfter(decay, reports, k).qBar - q)
  {
    SignalRemembers(decay, reports, k);
    MixPulls(decay(reports[k].now - reports[k - 1].now), SignalAfter(decay, reports, k).qBar, reports[k - 1].q as real);
  }

  lemma MixPulls(d: real, x: real, y: real)
    ensures Mix(d, x, y) - y == d * (x - y)
  {
  }

  // ---------------------------------------------------------------- event-count independence

  /** The signal can take reports from time t on: before the first one its average is its depth, as it is at rest. */
  predicate Open(s: Signal, t: real) {
    if s.last.Some? then s.last.value <= t else s.qBar == s.qInst as real
  }

  /** Integrating one constant depth over two adjacent spans equals integrating it over both at once. */
  lemma SplitSpan(decay: real -> real, s: Signal, t: real, q: nat, now: real)
    requires IsDecay(decay) && t <= now && Open(s, t)
    ensures Observe(decay, Observe(decay, s, s.qInst, t), q, now) == Observe(decay, s, q, now)
  {
    if s.last.Some? {
      assert Splits(decay, t - s.last.value, now - t);
      assert (t - s.last.value) + (now - t) == now - s.last.value;
      MixTwice(decay(t - s.last.value), decay(now - t), s.qBar, s.qInst as real);
    } else {
      MixOfSame(decay(now - t), s.qBar);
    }
  }

  function ObserveAll(decay: real -> real, s: Signal, reports: seq<Report>): Signal
    decreases |reports|
  {
    if |reports| == 0 then s
    else ObserveAll(decay, Observe(decay, s, reports[0].q, reports[0].now), reports[1..])
  }

  /**
   Inserting any number of reports that repeat the current depth, at any times before the next report, the very first
   one included, leaves the signal after that report, and so after every later one, unchanged.
   */
  lemma {:induction false} RepeatsDoNotMatter(decay: real -> real, s: Signal, repeats: seq<Report>, rest: seq<Report>)
    requires IsDecay(decay) && |rest| > 0 && Timely(repeats + rest) && Open(s, (repeats + rest)[0].now)
    requires forall i :: 0 <= i < |repeats| ==> repeats[i].q == s.qInst
    ensures ObserveAll(decay, s, repeats + rest) == ObserveAll(decay, s, rest)
    decreases |repeats|
  {
    if |repeats| == 0 {
      assert repeats + rest == rest;
    } else {
      var all, r, n := repeats + rest, repeats[0], rest[0];
      assert all[0] == r && all[|repeats|] == n && all[0].now <= all[1].now;
      assert all[1..] == repeats[1..] + rest;
      RepeatsDoNotMatter(decay, Observe(decay, s, r.q, r.now), repeats[1..], rest);
      SplitSpan(decay, s, r.now, n.q, n.now);
    }
  }

  /** Nor do repeats of depth zero before anything else is reported. */
  lemma EarlyZerosDoNotMatter(decay: real -> real, repeats: seq<Report>, rest: seq<Report>)
    requires IsDecay(decay) && |rest| > 0 && Timely(repeats + rest)
    requires forall i :: 0 <= i < |repeats| ==> repeats[i].q == 0
    ensures SignalAfter(decay, repeats + rest, |repeats + rest|) == SignalAfter(decay, rest, |rest|)
  {
    RepeatsDoNotMatter(decay, QUIET, repeats, rest);
    ObserveAllIsRun(decay, repeats + rest, 0);
    ObserveAllIsRun(decay, rest, 0);
    assert (repeats + rest)[0..] == repeats + rest && rest[0..] == rest;
  }

  /** Runs by index and runs by list are the same. */
  lemma {:induction false} ObserveAllIsRun(decay: real -> real, reports: seq<Report>, k: nat)
    requires k <= |reports|
    ensures ObserveAll(decay, SignalAfter(decay, reports, k), reports[k..]) == SignalAfter(decay, reports, |reports|)
    decreases |reports| - k
  {
    if k < |reports| {
      assert reports[k..][1..] == reports[k + 1..];
      ObserveAllIsRun(decay, reports, k + 1);
    }
  }
}
