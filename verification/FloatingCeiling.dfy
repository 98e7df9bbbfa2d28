/**
 The adaptive aging ceiling: when a request's key can move back as the threshold floats with the congestion, and when
 it cannot.
*/
module FloatingCeiling {
  import opened Models
  import opened Policies
  import opened Statistics
  import A = Arithmetic

  function Wait(e: Envelope, now: real): real {
    now - e.arrival
  }

  // ---------------------------------------------------------------- tiers under any two thresholds

  /** The request has waited n of the agingLevels steps that make up the threshold. */
  predicate Reached(c: SloConfig, e: Envelope, now: real, threshold: real, n: int) {
    Wait(e, now) * c.agingLevels as real >= n as real * threshold
  }

  lemma FloorAtLeast(x: real, step: real, n: int)
    requires step > 0.0
    ensures (x / step).Floor >= n <==> x >= n as real * step
  {
    var r := x / step;
    assert x == r * step;
    if r >= n as real {
      assert (r - n as real) * step >= 0.0;
    } else {
      assert (n as real - r) * step > 0.0;
    }
  }

  lemma StepsScale(w: real, n: real, step: real, l: real)
    requires l > 0.0
    ensures w >= n * step <==> w * l >= n * (step * l)
  {
    var gap := w - n * step;
    assert gap * l == w * l - n * (step * l);
    if gap >= 0.0 {
      assert gap * l >= 0.0;
    } else {
      assert gap * l < 0.0;
    }
  }

  lemma TierIsReached(c: SloConfig, e: Envelope, now: real, threshold: real, n: int)
    requires ValidSlo(c) && threshold > 0.0 && n <= c.agingLevels
    ensures Tier(c, e, now, threshold) >= n <==> Reached(c, e, now, threshold, n)
  {
    var l := c.agingLevels as real;
    var step := threshold / l;
    assert step * l == threshold && step > 0.0;
    FloorAtLeast(Wait(e, now), step, n);
    StepsScale(Wait(e, now), n as real, step, l);
  }

  /** Some step had been waited out before and is not any more. */
  ghost predicate StepLost(c: SloConfig, e: Envelope, now: real, now': real, threshold: real, threshold': real) {
    exists n: int :: n <= c.agingLevels && Reached(c, e, now, threshold, n) && !Reached(c, e, now', threshold', n)
  }

  /** Whatever the two thresholds, the tier falls exactly when a step that had been reached no longer is. */
  lemma TierFallsExactly(c: SloConfig, e: Envelope, now: real, now': real, threshold: real, threshold': real)
    requires ValidSlo(c) && threshold > 0.0 && threshold' > 0.0
    ensures Tier(c, e, now', threshold') < Tier(c, e, now, threshold)
       <==> StepLost(c, e, now, now', threshold, threshold')
  {
    var before := Tier(c, e, now, threshold);
    TierIsReached(c, e, now, threshold, before);
    TierIsReached(c, e, now', threshold', before);
    if StepLost(c, e, now, now', threshold, threshold') {
      var n: int :| n <= c.agingLevels && Reached(c, e, now, threshold, n) && !Reached(c, e, now', threshold', n);
      TierIsReached(c, e, now, threshold, n);
      TierIsReached(c, e, now', threshold', n);
    }
  }

  /** As time passes, whatever the two thresholds, a key moves back exactly when a step is lost. */
  lemma KeyRisesExactly(c: SloConfig, e: Envelope, now: real, now': real, threshold: real, threshold': real)
    requires ValidSlo(c) && threshold > 0.0 && threshold' > 0.0 && now <= now'
    ensures Less(SloKey(c, e, now, threshold), SloKey(c, e, now', threshold'))
       <==> StepLost(c, e, now, now', threshold, threshold')
  {
    TierFallsExactly(c, e, now, now', threshold, threshold');
    ScoreDrifts(c, e, now, now');
    DriftIsNonNegative(c, Budget(e), now' - now);
  }

  // ---------------------------------------------------------------- the threshold of a standing queue

  ghost predicate IsShift(s: seq<real>, s': seq<real>, d: real) {
    |s'| == |s| && forall i :: 0 <= i < |s| ==> s'[i] == s[i] + d
  }

  lemma {:induction false} InsertShifts(x: real, s: seq<real>, x': real, s': seq<real>, d: real)
    requires IsShift(s, s', d) && x' == x + d
    ensures IsShift(Insert(x, s), Insert(x', s'), d)
  {
    if |s| > 0 && x > s[0] {
      InsertShifts(x, s[1..], x', s'[1..], d);
    }
  }

  lemma SortStep(s: seq<real>)
    requires |s| > 0
    ensures Sort(s) == Insert(s[0], Sort(s[1..]))
  {
  }

  lemma {:induction false} SortShifts(s: seq<real>, s': seq<real>, d: real) returns (o: seq<real>, o': seq<real>)
    requires IsShift(s, s', d)
    ensures o == Sort(s) && o' == Sort(s') && IsShift(o, o', d)
  {
    if |s| == 0 {
      o, o' := [], [];
    } else {
      var t, t' := SortShifts(s[1..], s'[1..], d);
      InsertShifts(s[0], t, s'[0], t', d);
      SortStep(s);
      SortStep(s');
      o, o' := Insert(s[0], t), Insert(s'[0], t');
    }
  }

  lemma MedianShifts(s: seq<real>, s': seq<real>, d: real)
    requires |s| > 0 && IsShift(s, s', d)
    ensures Median(s') == Median(s) + d
  {
    var o, o' := SortShifts(s, s', d);
  }

  function Clamp(c: SloConfig, x: real): (t: real)
    requires ValidSlo(c)
    ensures c.ceilingFloor <= t <= c.ceilingCap
  {
    if x < c.ceilingFloor then c.ceilingFloor else if x > c.ceilingCap then c.ceilingCap else x
  }

  /** The threshold at a given median wait. */
  function Floating(c: SloConfig, median: real): real
    requires ValidSlo(c)
  {
    Clamp(c, A.Product(c.ceilingMargin, median))
  }

  function MedianWait(es: seq<Envelope>, now: real): real
    requires |es| > 0
  {
    Median(Waits(es, now))
  }

  lemma ThresholdIs(c: SloConfig, es: seq<Envelope>, now: real, median: real)
    requires ValidSlo(c) && c.adaptiveCeiling && |es| > 0 && median == MedianWait(es, now)
    ensures Threshold(c, es, now) == Floating(c, median)
  {
  }

  /** While the same requests wait, their median wait grows with time. */
  lemma MedianWaitGrows(es: seq<Envelope>, now: real, now': real)
    requires |es| > 0
    ensures MedianWait(es, now') == MedianWait(es, now) + (now' - now)
  {
    MedianShifts(Waits(es, now), Waits(es, now'), now' - now);
  }

  /**
   While the same requests wait, the threshold follows their median wait: by `CeilingIsThreshold` one is at the ceiling
   later exactly when its wait has kept up with the margin times the grown median, clamped.
  */
  lemma ThresholdFloats(c: SloConfig, es: seq<Envelope>, now: real, now': real, median: real)
    requires ValidSlo(c) && c.adaptiveCeiling && |es| > 0
    requires median == MedianWait(es, now) + (now' - now)
    ensures Threshold(c, es, now') == Floating(c, median)
  {
    MedianWaitGrows(es, now, now');
    ThresholdIs(c, es, now', median);
  }

  lemma ScaledSlowly(m: real, x: real, y: real)
    requires 0.0 < m <= 1.0 && x <= y
    ensures A.Product(m, x) <= A.Product(m, y) <= A.Product(m, x) + (y - x)
  {
    A.ProductGrows(m, x, y);
    A.ProductGrows(1.0 - m, x, y);
    A.Distribute(m, 1.0 - m, x);
    A.Distribute(m, 1.0 - m, y);
    assert m + (1.0 - m) == 1.0 && A.Product(1.0, x) == x && A.Product(1.0, y) == y;
  }

  lemma ClampsSlowly(c: SloConfig, x: real, y: real, gap: real)
    requires ValidSlo(c) && x <= y <= x + gap
    ensures Clamp(c, x) <= Clamp(c, y) <= Clamp(c, x) + gap
  {
  }

  lemma FloatsSlowly(c: SloConfig, median: real, later: real)
    requires ValidSlo(c) && c.ceilingMargin <= 1.0 && median <= later
    ensures Floating(c, median) <= Floating(c, later) <= Floating(c, median) + (later - median)
  {
    ScaledSlowly(c.ceilingMargin, median, later);
    ClampsSlowly(c, A.Product(c.ceilingMargin, median), A.Product(c.ceilingMargin, later), later - median);
  }

  lemma ThresholdRises(c: SloConfig, es: seq<Envelope>, now: real, now': real)
    requires ValidSlo(c) && c.adaptiveCeiling && c.ceilingMargin <= 1.0 && |es| > 0 && now <= now'
    ensures Threshold(c, es, now) <= Threshold(c, es, now') <= Threshold(c, es, now) + (now' - now)
  {
    var median, later := MedianWait(es, now), MedianWait(es, now');
    MedianWaitGrows(es, now, now');
    ThresholdIs(c, es, now, median);
    ThresholdIs(c, es, now', later);
    FloatsSlowly(c, median, later);
  }

  // ---------------------------------------------------------------- thresholds that grow no faster than time

  /** A wait that grows at least as fast, for its share of the threshold, keeps every step it has reached. */
  lemma ReachedStays(w: real, w': real, t: real, t': real, l: real, n: real)
    requires t > 0.0 && t' > 0.0 && l > 0.0 && n <= l && w <= w'
    requires w <= t ==> w * t' <= w' * t
    requires w >= t ==> w' >= t'
    requires w * l >= n * t
    ensures w' * l >= n * t'
  {
    if w >= t {
      assert (w' - t') * l >= 0.0;
      assert (l - n) * t' >= 0.0;
    } else {
      var a, b := w * l - n * t, w' * t - w * t';
      assert a * t' >= 0.0 && b * l >= 0.0;
      assert (w' * l - n * t') * t == b * l + a * t';
      assert w' * l - n * t' >= 0.0;
    }
  }

  lemma SlowerThreshold(w: real, elapsed: real, t: real, t': real)
    requires w <= t && 0.0 < t && 0.0 < t' <= t + elapsed && elapsed >= 0.0 && (t <= t' || w >= 0.0)
    ensures w * t' <= (w + elapsed) * t
  {
    var grown := t' - t;
    assert w * t' == w * t + w * grown;
    assert (w + elapsed) * t == w * t + elapsed * t;
    if grown >= 0.0 {
      assert (t - w) * grown >= 0.0;
      assert (elapsed - grown) * t >= 0.0;
    } else {
      assert w * -grown >= 0.0;
    }
  }

  /** The key of a request that has arrived never moves back while its threshold grows no faster than time. */
  lemma SlowThresholdKeepsKey(c: SloConfig, e: Envelope, now: real, now': real, t: real, t': real)
    requires ValidSlo(c) && 0.0 < t && 0.0 < t' <= t + (now' - now) && now <= now'
    requires t <= t' || Wait(e, now) >= 0.0
    ensures !Less(SloKey(c, e, now, t), SloKey(c, e, now', t'))
  {
    forall n: int | n <= c.agingLevels && Reached(c, e, now, t, n) ensures Reached(c, e, now', t', n) {
      StepIsKept(c, e, now, now', t, t', n);
    }
    KeyRisesExactly(c, e, now, now', t, t');
  }

  lemma StepIsKept(c: SloConfig, e: Envelope, now: real, now': real, t: real, t': real, n: int)
    requires ValidSlo(c) && 0.0 < t && 0.0 < t' <= t + (now' - now) && now <= now'
    requires t <= t' || Wait(e, now) >= 0.0
    requires n <= c.agingLevels && Reached(c, e, now, t, n)
    ensures Reached(c, e, now', t', n)
  {
    var w := Wait(e, now);
    if w <= t {
      SlowerThreshold(w, now' - now, t, t');
    }
    ReachedStays(w, Wait(e, now'), t, t', c.agingLevels as real, n as real);
  }

  /** With a margin of at most one, no key moves back while the same requests wait. */
  lemma SmallMarginKeepsKeys(c: SloConfig, es: seq<Envelope>, now: real, now': real, j: nat)
    requires ValidSlo(c) && c.adaptiveCeiling && c.ceilingMargin <= 1.0 && j < |es| && now <= now'
    ensures !Less(SloKey(c, es[j], now, Threshold(c, es, now)), SloKey(c, es[j], now', Threshold(c, es, now')))
  {
    var t, t' := Threshold(c, es, now), Threshold(c, es, now');
    ThresholdRises(c, es, now, now');
    SlowThresholdKeepsKey(c, es[j], now, now', t, t');
  }

  // ---------------------------------------------------------------- a key that moves back

  /** Waits of 5, 3 and 3 under a margin of 1.5: the first request is at the ceiling, and 5 later it is not. */
  lemma LargeMarginLosesCeiling(c: SloConfig, es: seq<Envelope>)
    requires ValidSlo(c) && c.adaptiveCeiling && c.ceilingMargin == 1.5
    requires c.ceilingFloor <= 4.5 && c.ceilingCap >= 12.0
    requires |es| == 3 && es[0].arrival == 0.0 && es[1].arrival == es[2].arrival == 2.0
    ensures Tier(c, es[0], 5.0, Threshold(c, es, 5.0)) == c.agingLevels
    ensures Tier(c, es[0], 10.0, Threshold(c, es, 10.0)) < c.agingLevels
    ensures Less(SloKey(c, es[0], 5.0, Threshold(c, es, 5.0)), SloKey(c, es[0], 10.0, Threshold(c, es, 10.0)))
  {
    ExampleMedian(es);
    var t, t' := ExampleThresholds(c, es);
    CeilingIsThreshold(c, es[0], 5.0, t);
    CeilingIsThreshold(c, es[0], 10.0, t');
    TierFallsExactly(c, es[0], 5.0, 10.0, t, t');
    KeyRisesExactly(c, es[0], 5.0, 10.0, t, t');
  }

  lemma ExampleMedian(es: seq<Envelope>)
    requires |es| == 3 && es[0].arrival == 0.0 && es[1].arrival == es[2].arrival == 2.0
    ensures MedianWait(es, 5.0) == 3.0
  {
    assert Waits(es, 5.0) == [5.0, 3.0, 3.0];
    MedianOfExample();
  }

  lemma ExampleThresholds(c: SloConfig, es: seq<Envelope>) returns (t: real, t': real)
    requires ValidSlo(c) && c.adaptiveCeiling && c.ceilingMargin == 1.5
    requires c.ceilingFloor <= 4.5 && c.ceilingCap >= 12.0
    requires |es| > 0 && MedianWait(es, 5.0) == 3.0
    ensures t == Threshold(c, es, 5.0) == 4.5 && t' == Threshold(c, es, 10.0) == 12.0
  {
    MedianWaitGrows(es, 5.0, 10.0);
    ThresholdIs(c, es, 5.0, 3.0);
    ThresholdIs(c, es, 10.0, 8.0);
    t, t' := 4.5, 12.0;
  }

  lemma MedianOfExample()
    ensures Median([5.0, 3.0, 3.0]) == 3.0
  {
    var t, s := [3.0, 3.0], [5.0, 3.0, 3.0];
    assert t[1..] == [3.0] && s[1..] == t;
    assert Sort([3.0]) == [3.0];
    SortStep(t);
    assert Sort(t) == t;
    SortStep(s);
    InsertLargest(5.0);
  }

  lemma InsertLargest(x: real)
    requires x > 3.0
    ensures Insert(x, [3.0, 3.0]) == [3.0, 3.0, x]
  {
    assert [3.0, 3.0][1..] == [3.0] && [3.0][1..] == [];
    assert Insert(x, [3.0]) == [3.0, x];
  }
}
