/**
 The scheduling policies: each ranks waiting requests by an ascending key, ties in waiting order. The
 SLO-aware key is a normalized score inside graduated aging tiers, the last tier being a hard ceiling.
*/
module Policies {
  import opened Wrappers
  import opened Models
  import opened Statistics

  const EPSILON := 0.000000001

  datatype LengthSource = TrueLength | Advertised | Learned

  datatype SloConfig = SloConfig(
    inputTokenSeconds: real,
    outputTokenSeconds: real,
    costWeight: real,
    slackWeight: real,
    waitingWeight: real,
    agingThreshold: real,
    disableLengthEstimate: bool,
    agingLevels: nat,
    adaptiveCeiling: bool,
    ceilingMargin: real,
    ceilingFloor: real,
    ceilingCap: real,
    lengthSource: LengthSource,
    predict: (RequestClass, Option<string>) -> real)

  predicate ValidSlo(c: SloConfig) {
    && c.inputTokenSeconds >= 0.0 && c.outputTokenSeconds >= 0.0
    && c.costWeight >= 0.0 && c.slackWeight >= 0.0 && c.waitingWeight >= 0.0
    && c.costWeight + c.slackWeight + c.waitingWeight > 0.0
    && c.agingThreshold > 0.0 && c.agingLevels >= 1
    && c.ceilingMargin > 0.0 && 0.0 < c.ceilingFloor <= c.ceilingCap
  }

  datatype Policy = Fcfs | StaticPriority | SloAware(slo: SloConfig)

  predicate ValidPolicy(p: Policy) {
    p.SloAware? ==> ValidSlo(p.slo)
  }

  // ---------------------------------------------------------------- keys

  /** Keys compare lexicographically. */
  datatype Key = Key(first: real, second: real, third: real)

  predicate Less(a: Key, b: Key) {
    || a.first < b.first
    || (a.first == b.first && a.second < b.second)
    || (a.first == b.first && a.second == b.second && a.third < b.third)
  }

  function EstimatedOutputTokens(c: SloConfig, e: Envelope): real {
    var cap := if e.advertisedCap.Some? && e.advertisedCap.value != 0 then e.advertisedCap.value else e.maxOutputTokens;
    var estimate :=
      match c.lengthSource
      case TrueLength => e.maxOutputTokens as real
      case Advertised => cap as real
      case Learned => c.predict(e.requestClass, e.promptKind);
    if ClipApplied(e) && EffectiveMax(e) as real < estimate then EffectiveMax(e) as real else estimate
  }

  function Budget(e: Envelope): (b: real)
    ensures b > 0.0
  {
    if e.deadline - e.arrival <= 0.0 then EPSILON else e.deadline - e.arrival
  }

  function ServiceTime(c: SloConfig, e: Envelope): real {
    if c.disableLengthEstimate then 0.0
    else c.inputTokenSeconds * e.inputTokens as real + c.outputTokenSeconds * EstimatedOutputTokens(c, e)
  }

  function Score(c: SloConfig, e: Envelope, now: real): real {
    var b, service := Budget(e), ServiceTime(c, e);
    c.costWeight * (service / b) + c.slackWeight * ((e.deadline - now - service) / b)
        - c.waitingWeight * ((now - e.arrival) / b)
  }

  /** How many whole steps of threshold/agingLevels a request has waited, at most agingLevels. */
  function Tier(c: SloConfig, e: Envelope, now: real, threshold: real): (tier: int)
    requires ValidSlo(c) && threshold > 0.0
    ensures tier <= c.agingLevels
  {
    var steps := ((now - e.arrival) / (threshold / c.agingLevels as real)).Floor;
    if steps < c.agingLevels then steps else c.agingLevels
  }

  function SloKey(c: SloConfig, e: Envelope, now: real, threshold: real): Key
    requires ValidSlo(c) && threshold > 0.0
  {
    var tier := Tier(c, e, now, threshold);
    if tier == c.agingLevels then Key(0.0, e.arrival, e.sequenceId as real)
    else Key((c.agingLevels - tier) as real, Score(c, e, now), e.sequenceId as real)
  }

  function Waits(es: seq<Envelope>, now: real): (w: seq<real>)
    ensures |w| == |es|
  {
    seq(|es|, i requires 0 <= i < |es| => now - es[i].arrival)
  }

  /** The aging ceiling: fixed, or the congestion-relative median clamped into [floor, cap]. */
  function Threshold(c: SloConfig, es: seq<Envelope>, now: real): (t: real)
    requires ValidSlo(c) && |es| > 0
    ensures t > 0.0
    ensures c.adaptiveCeiling ==> c.ceilingFloor <= t <= c.ceilingCap
    ensures c.adaptiveCeiling ==>
              var relative := c.ceilingMargin * Median(Waits(es, now));
              && (c.ceilingFloor <= relative <= c.ceilingCap ==> t == relative)
              && (relative < c.ceilingFloor ==> t == c.ceilingFloor)
              && (relative > c.ceilingCap ==> t == c.ceilingCap)
    ensures !c.adaptiveCeiling ==> t == c.agingThreshold
  {
    if !c.adaptiveCeiling then c.agingThreshold
    else
      var relative := c.ceilingMargin * Median(Waits(es, now));
      var raised := if relative > c.ceilingFloor then relative else c.ceilingFloor;
      if raised < c.ceilingCap then raised else c.ceilingCap
  }

  function ClassRank(e: Envelope): real {
    if e.requestClass.Interactive? then 0.0 else 1.0
  }

  /** The key of one request among the requests waiting with it. */
  function RankKey(p: Policy, es: seq<Envelope>, e: Envelope, now: real): Key
    requires ValidPolicy(p) && |es| > 0
  {
    match p
    case Fcfs => Key(0.0, e.arrival, e.sequenceId as real)
    case StaticPriority => Key(ClassRank(e), e.arrival, e.sequenceId as real)
    case SloAware(c) => SloKey(c, e, now, Threshold(c, es, now))
  }

  // ---------------------------------------------------------------- the order

  /** Puts a request in front of the first one it does not come strictly after. */
  function Place(p: Policy, es: seq<Envelope>, e: Envelope, now: real, sorted: seq<Envelope>): (r: seq<Envelope>)
    requires ValidPolicy(p) && |es| > 0
    ensures multiset(r) == multiset{e} + multiset(sorted) && |r| == |sorted| + 1
  {
    if |sorted| == 0 || !Less(RankKey(p, es, sorted[0], now), RankKey(p, es, e, now)) then [e] + sorted
    else
      assert sorted == [sorted[0]] + sorted[1..];
      [sorted[0]] + Place(p, es, e, now, sorted[1..])
  }

  /** The stable sort of the last n requests by key. */
  function OrderFrom(p: Policy, es: seq<Envelope>, now: real, i: nat): (r: seq<Envelope>)
    requires ValidPolicy(p) && |es| > 0 && i <= |es|
    ensures multiset(r) == multiset(es[i..]) && |r| == |es| - i
    decreases |es| - i
  {
    if i == |es| then []
    else
      assert es[i..] == [es[i]] + es[i + 1..];
      Place(p, es, es[i], now, OrderFrom(p, es, now, i + 1))
  }

  function Order(p: Policy, es: seq<Envelope>, now: real): (r: seq<Envelope>)
    requires ValidPolicy(p)
    ensures multiset(r) == multiset(es) && |r| == |es|
  {
    if |es| == 0 then [] else
      assert es[0..] == es;
      OrderFrom(p, es, now, 0)
  }

  /** The position of the first request in dispatch order among positions i and later. */
  function HeadFrom(p: Policy, es: seq<Envelope>, now: real, i: nat): (h: nat)
    requires ValidPolicy(p) && i < |es|
    ensures i <= h < |es|
    ensures forall k :: i <= k < |es| ==> !Less(RankKey(p, es, es[k], now), RankKey(p, es, es[h], now))
    ensures forall k :: i <= k < h ==> Less(RankKey(p, es, es[h], now), RankKey(p, es, es[k], now))
    decreases |es| - i
  {
    if i == |es| - 1 then i
    else
      var h := HeadFrom(p, es, now, i + 1);
      if Less(RankKey(p, es, es[h], now), RankKey(p, es, es[i], now)) then h else i
  }

  /** The position of the request the queue dispatches next. */
  function Head(p: Policy, es: seq<Envelope>, now: real): (h: nat)
    requires ValidPolicy(p) && |es| > 0
    ensures h < |es|
    ensures forall k :: 0 <= k < |es| ==> !Less(RankKey(p, es, es[k], now), RankKey(p, es, es[h], now))
    ensures forall k :: 0 <= k < h ==> Less(RankKey(p, es, es[h], now), RankKey(p, es, es[k], now))
  {
    HeadFrom(p, es, now, 0)
  }

  ghost predicate InOrder(p: Policy, es: seq<Envelope>, now: real, r: seq<Envelope>)
    requires ValidPolicy(p) && |es| > 0
  {
    forall i, j :: 0 <= i < j < |r| ==> !Less(RankKey(p, es, r[j], now), RankKey(p, es, r[i], now))
  }

  lemma {:induction false} PlaceKeepsOrder(p: Policy, es: seq<Envelope>, e: Envelope, now: real, sorted: seq<Envelope>)
    requires ValidPolicy(p) && |es| > 0 && InOrder(p, es, now, sorted)
    ensures InOrder(p, es, now, Place(p, es, e, now, sorted))
    ensures forall x :: x in Place(p, es, e, now, sorted) ==> x == e || x in sorted
  {
    if |sorted| > 0 && Less(RankKey(p, es, sorted[0], now), RankKey(p, es, e, now)) {
      PlaceKeepsOrder(p, es, e, now, sorted[1..]);
      var rest := Place(p, es, e, now, sorted[1..]);
      forall k | 0 <= k < |rest| ensures !Less(RankKey(p, es, rest[k], now), RankKey(p, es, sorted[0], now)) {
        if rest[k] != e {
          assert rest[k] in sorted[1..];
        }
      }
    }
  }

  lemma {:induction false} SortedFrom(p: Policy, es: seq<Envelope>, now: real, i: nat)
    requires ValidPolicy(p) && |es| > 0 && i <= |es|
    ensures InOrder(p, es, now, OrderFrom(p, es, now, i))
    ensures i < |es| ==> OrderFrom(p, es, now, i)[0] == es[HeadFrom(p, es, now, i)]
    decreases |es| - i
  {
    if i < |es| {
      SortedFrom(p, es, now, i + 1);
      PlaceKeepsOrder(p, es, es[i], now, OrderFrom(p, es, now, i + 1));
    }
  }

  /** The dispatch order ascends in the key and begins with the request at Head. */
  lemma OrderIsSorted(p: Policy, es: seq<Envelope>, now: real)
    requires ValidPolicy(p) && |es| > 0
    ensures InOrder(p, es, now, Order(p, es, now))
    ensures Order(p, es, now)[0] == es[Head(p, es, now)]
  {
    SortedFrom(p, es, now, 0);
  }

  // ---------------------------------------------------------------- tiers

  lemma QuotientAtLeast(x: real, y: real, n: nat)
    requires y > 0.0
    ensures x / y >= n as real <==> x >= n as real * y
  {
    var r := x / y;
    assert x == r * y;
    if r >= n as real {
      assert (r - n as real) * y >= 0.0;
    } else {
      assert (n as real - r) * y > 0.0;
    }
  }

  /** A request sits in the ceiling tier exactly when it has waited the threshold, whatever the number of tiers. */
  lemma CeilingIsThreshold(c: SloConfig, e: Envelope, now: real, threshold: real)
    requires ValidSlo(c) && threshold > 0.0
    ensures Tier(c, e, now, threshold) == c.agingLevels <==> now - e.arrival >= threshold
  {
    var n := c.agingLevels as real;
    var step := threshold / n;
    assert n * step == threshold;
    assert step > 0.0;
    QuotientAtLeast(now - e.arrival, step, c.agingLevels);
  }

  lemma SplitQuotient(x: real, y: real, b: real)
    requires b != 0.0
    ensures (x - y) / b == x / b - y / b
  {
    var p, q := x / b, y / b;
    assert p * b == x && q * b == y;
    assert (p - q) * b == x - y;
    assert ((p - q) * b) / b == p - q;
  }

  lemma QuotientSign(x: real, y: real)
    requires y > 0.0 && x >= 0.0
    ensures x / y >= 0.0
  {
    var r := x / y;
    assert r * y == x;
  }

  lemma TierGrows(c: SloConfig, e: Envelope, now: real, now': real, threshold: real)
    requires ValidSlo(c) && threshold > 0.0 && now <= now'
    ensures Tier(c, e, now, threshold) <= Tier(c, e, now', threshold)
  {
    var step := threshold / c.agingLevels as real;
    assert step * c.agingLevels as real == threshold;
    assert step > 0.0;
    SplitQuotient(now' - e.arrival, now - e.arrival, step);
    QuotientSign(now' - now, step);
    assert (now' - e.arrival) - (now - e.arrival) == now' - now;
  }

  // ---------------------------------------------------------------- scores

  /** How fast every score of budget b falls. */
  function Drift(c: SloConfig, b: real, elapsed: real): real
    requires b > 0.0
  {
    (c.slackWeight + c.waitingWeight) * (elapsed / b)
  }

  /** Scores fall linearly in time, at a rate that depends on the budget alone. */
  lemma ScoreDrifts(c: SloConfig, e: Envelope, now: real, now': real)
    ensures Score(c, e, now') == Score(c, e, now) - Drift(c, Budget(e), now' - now)
  {
    var b, service := Budget(e), ServiceTime(c, e);
    var elapsed := now' - now;
    SplitQuotient(e.deadline - now - service, elapsed, b);
    SplitQuotient(now' - e.arrival, elapsed, b);
    var u, v, d := (e.deadline - now - service) / b, (now - e.arrival) / b, elapsed / b;
    assert e.deadline - now' - service == (e.deadline - now - service) - elapsed;
    assert now - e.arrival == (now' - e.arrival) - elapsed;
    assert (e.deadline - now' - service) / b == u - d && (now' - e.arrival) / b == v + d;
    assert c.slackWeight * (u - d) == c.slackWeight * u - c.slackWeight * d;
    assert c.waitingWeight * (v + d) == c.waitingWeight * v + c.waitingWeight * d;
    assert (c.slackWeight + c.waitingWeight) * d == c.slackWeight * d + c.waitingWeight * d;
  }

  lemma DriftIsNonNegative(c: SloConfig, b: real, elapsed: real)
    requires ValidSlo(c) && b > 0.0 && elapsed >= 0.0
    ensures Drift(c, b, elapsed) >= 0.0
  {
    QuotientSign(elapsed, b);
  }

  /** As time passes the key of a request under a fixed threshold never moves back in the order. */
  lemma KeyNeverRises(c: SloConfig, e: Envelope, now: real, now': real, threshold: real)
    requires ValidSlo(c) && threshold > 0.0 && now <= now'
    ensures !Less(SloKey(c, e, now, threshold), SloKey(c, e, now', threshold))
  {
    TierGrows(c, e, now, now', threshold);
    ScoreDrifts(c, e, now, now');
    DriftIsNonNegative(c, Budget(e), now' - now);
  }

  /**
   Two requests of equal budget that share a non-ceiling tier at two times rank the same way at both.
   */
  lemma OrderInTierIsStable(c: SloConfig, x: Envelope, y: Envelope, now: real, now': real, threshold: real,
      threshold': real)
    requires ValidSlo(c) && threshold > 0.0 && threshold' > 0.0 && Budget(x) == Budget(y)
    requires Tier(c, x, now, threshold) == Tier(c, y, now, threshold) < c.agingLevels
    requires Tier(c, x, now', threshold') == Tier(c, y, now', threshold') < c.agingLevels
    ensures Less(SloKey(c, x, now, threshold), SloKey(c, y, now, threshold))
       <==> Less(SloKey(c, x, now', threshold'), SloKey(c, y, now', threshold'))
  {
    ScoreDrifts(c, x, now, now');
    ScoreDrifts(c, y, now, now');
  }

  // ---------------------------------------------------------------- the ceiling

  /** The wait after which a request is at the ceiling whatever else waits. */
  function HardCeiling(c: SloConfig): real {
    if c.adaptiveCeiling then c.ceilingCap else c.agingThreshold
  }

  predicate Aged(c: SloConfig, e: Envelope, now: real) {
    now - e.arrival >= HardCeiling(c)
  }

  /** First come, first served: by arrival, then sequence number. */
  predicate Earlier(a: Envelope, b: Envelope) {
    a.arrival < b.arrival || (a.arrival == b.arrival && a.sequenceId < b.sequenceId)
  }

  /** Once a request is aged, only a request that came no later than it can be selected. */
  lemma AgedComesFirst(c: SloConfig, es: seq<Envelope>, now: real, j: nat)
    requires ValidSlo(c) && j < |es| && Aged(c, es[j], now)
    ensures !Earlier(es[j], es[Head(SloAware(c), es, now)])
  {
    var t, h := Threshold(c, es, now), Head(SloAware(c), es, now);
    CeilingIsThreshold(c, es[j], now, t);
    CeilingIsThreshold(c, es[h], now, t);
    assert !Less(RankKey(SloAware(c), es, es[j], now), RankKey(SloAware(c), es, es[h], now));
  }
}
