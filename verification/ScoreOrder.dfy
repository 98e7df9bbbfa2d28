/**
 What decides between two waiting requests, in terms of their tokens, arrivals and deadlines: tiers first, then the
 score's trade between work, slack and waiting, then the sequence number.
*/
module ScoreOrder {
  import opened Models
  import opened Policies
  import A = Arithmetic

  // ---------------------------------------------------------------- tiers, classes and first come, first served

  /** A higher tier goes first, and inside the ceiling tier first come, first served. */
  lemma TiersGoFirst(c: SloConfig, x: Envelope, y: Envelope, now: real, threshold: real)
    requires ValidSlo(c) && threshold > 0.0
    ensures Tier(c, x, now, threshold) > Tier(c, y, now, threshold) ==>
              Less(SloKey(c, x, now, threshold), SloKey(c, y, now, threshold))
    ensures now - x.arrival >= threshold && now - y.arrival >= threshold ==>
              (Less(SloKey(c, x, now, threshold), SloKey(c, y, now, threshold)) <==>
                 x.arrival < y.arrival || (x.arrival == y.arrival && x.sequenceId < y.sequenceId))
  {
    CeilingIsThreshold(c, x, now, threshold);
    CeilingIsThreshold(c, y, now, threshold);
  }

  /** Inside the ceiling tier the order is that of arrival and sequence number. */
  lemma CeilingIsFirstCome(c: SloConfig, x: Envelope, y: Envelope, now: real, threshold: real)
    requires ValidSlo(c) && threshold > 0.0 && now - x.arrival >= threshold && now - y.arrival >= threshold
    ensures Less(SloKey(c, x, now, threshold), SloKey(c, y, now, threshold)) <==> Earlier(x, y)
  {
    TiersGoFirst(c, x, y, now, threshold);
  }

  /** A threshold that the configuration can produce. */
  predicate Attainable(c: SloConfig, threshold: real) {
    if c.adaptiveCeiling then c.ceilingFloor <= threshold <= c.ceilingCap else threshold == c.agingThreshold
  }

  /** A request is aged exactly when it is at the ceiling under every threshold the configuration can produce. */
  lemma AgedIsAlwaysAtCeiling(c: SloConfig, e: Envelope, now: real)
    requires ValidSlo(c)
    ensures Aged(c, e, now) <==>
              forall t: real :: t > 0.0 && Attainable(c, t) ==> Tier(c, e, now, t) == c.agingLevels
  {
    forall t: real | t > 0.0 && Attainable(c, t)
      ensures Tier(c, e, now, t) == c.agingLevels <==> now - e.arrival >= t
    {
      CeilingIsThreshold(c, e, now, t);
    }
    assert Attainable(c, if c.adaptiveCeiling then c.ceilingCap else c.agingThreshold);
  }

  /** First come, first served dispatches the earliest arrival, ties by sequence number. */
  lemma FcfsTakesEarliest(es: seq<Envelope>, now: real, k: nat)
    requires k < |es|
    ensures var h := es[Head(Fcfs, es, now)];
            h.arrival < es[k].arrival || (h.arrival == es[k].arrival && h.sequenceId <= es[k].sequenceId)
  {
    assert !Less(RankKey(Fcfs, es, es[k], now), RankKey(Fcfs, es, es[Head(Fcfs, es, now)], now));
  }

  /** Static priority dispatches an interactive request while one waits, and the earliest of the class it takes. */
  lemma StaticTakesInteractive(es: seq<Envelope>, now: real, k: nat)
    requires k < |es|
    ensures var h := es[Head(StaticPriority, es, now)];
            && (es[k].requestClass.Interactive? ==> h.requestClass.Interactive?)
            && (h.requestClass == es[k].requestClass ==>
                  h.arrival < es[k].arrival || (h.arrival == es[k].arrival && h.sequenceId <= es[k].sequenceId))
  {
    var h := Head(StaticPriority, es, now);
    assert !Less(RankKey(StaticPriority, es, es[k], now), RankKey(StaticPriority, es, es[h], now));
  }

  // ---------------------------------------------------------------- what the estimate may see

  /** The true length is what the backend may generate: a real clip is seen, whoever made it. */
  lemma TrueLengthSeesLimit(c: SloConfig, e: Envelope)
    requires ValidEnvelope(e) && c.lengthSource.TrueLength?
    ensures EstimatedOutputTokens(c, e) ==
            (if e.backendMax.Some? then e.backendMax.value else e.maxOutputTokens) as real
  {
  }

  /** An advertised length is the cap the request carries, or its target if it carries none. */
  lemma AdvertisedSeesCap(c: SloConfig, e: Envelope)
    requires ValidEnvelope(e) && c.lengthSource.Advertised?
    ensures var cap := if e.advertisedCap.Some? then e.advertisedCap.value else e.maxOutputTokens;
            EstimatedOutputTokens(c, e) ==
            (if e.backendMax.Some? && e.backendMax.value < e.maxOutputTokens && e.backendMax.value < cap
             then e.backendMax.value else cap) as real
  {
  }

  /** A learned length is the prediction for the request's class and kind, bounded by a real clip. */
  lemma LearnedSeesPrediction(c: SloConfig, e: Envelope)
    requires ValidEnvelope(e) && c.lengthSource.Learned?
    ensures var predicted := c.predict(e.requestClass, e.promptKind);
            EstimatedOutputTokens(c, e) ==
            if e.backendMax.Some? && e.backendMax.value < e.maxOutputTokens && e.backendMax.value as real < predicted
            then e.backendMax.value as real else predicted
  {
  }

  /** The hidden target of an unclipped request shows in no learned estimate, nor beside an advertised cap. */
  lemma TargetStaysHidden(c: SloConfig, e: Envelope, target: nat)
    requires ValidEnvelope(e) && e.backendMax.None? && target >= 1
    requires c.lengthSource.Learned? || (c.lengthSource.Advertised? && e.advertisedCap.Some?)
    ensures EstimatedOutputTokens(c, e.(maxOutputTokens := target)) == EstimatedOutputTokens(c, e)
  {
  }

  // ---------------------------------------------------------------- the score without divisions

  /** The service time the policy sees. */
  function Work(c: SloConfig, e: Envelope): real {
    if c.disableLengthEstimate then 0.0
    else
      A.Product(c.inputTokenSeconds, e.inputTokens as real)
      + A.Product(c.outputTokenSeconds, EstimatedOutputTokens(c, e))
  }

  /** What counts against a request beside its slack: work at the net cost of work, less its wait at the net price. */
  function Burden(c: SloConfig, e: Envelope, now: real): real {
    A.Product(c.costWeight - c.slackWeight, Work(c, e)) - A.Product(c.slackWeight + c.waitingWeight, now - e.arrival)
  }

  lemma ScoreParts(cost: real, slack: real, waiting: real, work: real, budget: real, wait: real)
    requires budget > 0.0
    ensures (cost * (work / budget) + slack * ((budget - wait - work) / budget) - waiting * (wait / budget) - slack)
              * budget
            == A.Product(cost - slack, work) - A.Product(slack + waiting, wait)
  {
    var u, v := work / budget, wait / budget;
    SplitQuotient(budget - wait, work, budget);
    SplitQuotient(budget, wait, budget);
    assert work == u * budget && wait == v * budget;
    assert (budget - wait - work) / budget == 1.0 - v - u;
    PartsAdd(cost, slack, waiting, u, v);
    Scales(cost - slack, u, budget);
    Scales(slack + waiting, v, budget);
    Spreads((cost - slack) * u, (slack + waiting) * v, budget);
  }

  lemma PartsAdd(cost: real, slack: real, waiting: real, u: real, v: real)
    ensures cost * u + slack * (1.0 - v - u) - waiting * v - slack == (cost - slack) * u - (slack + waiting) * v
  {
  }

  lemma Scales(w: real, u: real, b: real)
    ensures (w * u) * b == A.Product(w, u * b)
  {
  }

  lemma Spreads(p: real, q: real, b: real)
    ensures (p - q) * b == p * b - q * b
  {
  }

  /** The score is the slack weight plus the burden per unit of budget. */
  lemma ScoreIsBurden(c: SloConfig, e: Envelope, now: real)
    requires e.deadline > e.arrival
    ensures A.Product(Score(c, e, now) - c.slackWeight, e.deadline - e.arrival) == Burden(c, e, now)
  {
    var b, work := e.deadline - e.arrival, Work(c, e);
    assert e.deadline - now - work == b - (now - e.arrival) - work;
    ScoreParts(c.costWeight, c.slackWeight, c.waitingWeight, work, b, now - e.arrival);
  }

  /** A request whose deadline is its arrival has the least budget there is. */
  lemma ScoreWithoutBudget(c: SloConfig, e: Envelope, now: real)
    requires e.deadline == e.arrival
    ensures A.Product(Score(c, e, now), EPSILON) == Burden(c, e, now)
  {
    NoBudgetParts(c.costWeight, c.slackWeight, c.waitingWeight, Work(c, e), EPSILON, now - e.arrival);
    assert e.deadline - now - Work(c, e) == -(now - e.arrival) - Work(c, e);
  }

  lemma NoBudgetParts(cost: real, slack: real, waiting: real, work: real, budget: real, wait: real)
    requires budget > 0.0
    ensures (cost * (work / budget) + slack * ((-wait - work) / budget) - waiting * (wait / budget)) * budget
            == A.Product(cost - slack, work) - A.Product(slack + waiting, wait)
  {
    ScoreParts(cost, slack, waiting, work, budget, wait);
    var u, v := work / budget, wait / budget;
    SplitQuotient(-wait, work, budget);
    SplitQuotient(0.0, wait, budget);
    SplitQuotient(budget - wait, work, budget);
    SplitQuotient(budget, wait, budget);
    assert (budget - wait - work) / budget == 1.0 + (-wait - work) / budget;
    Shifts(slack, (-wait - work) / budget);
  }

  lemma Shifts(slack: real, u: real)
    ensures slack * (1.0 + u) - slack == slack * u
  {
  }

  lemma CompareQuotients(s: real, t: real, b: real, d: real, p: real, q: real)
    requires b > 0.0 && d > 0.0 && s * b == p && t * d == q
    ensures s < t <==> A.Product(p, d) < A.Product(q, b)
  {
    var bd := b * d;
    assert bd > 0.0;
    assert p * d == s * bd && q * b == t * bd;
    assert (t - s) * bd == t * bd - s * bd;
    if s < t {
      assert (t - s) * bd > 0.0;
    } else {
      assert (s - t) * bd >= 0.0;
    }
  }

  lemma CompareShifted(s: real, t: real, k: real, b: real, d: real, p: real, q: real)
    requires b > 0.0 && d > 0.0 && A.Product(s - k, b) == p && A.Product(t - k, d) == q
    ensures s < t <==> A.Product(p, d) < A.Product(q, b)
  {
    CompareQuotients(s - k, t - k, b, d, p, q);
  }

  /** One score is below another exactly when its burden weighs less against the other's budget. */
  lemma ScoresCompare(c: SloConfig, x: Envelope, y: Envelope, now: real)
    requires x.deadline > x.arrival && y.deadline > y.arrival
    ensures Score(c, x, now) < Score(c, y, now) <==>
              A.Product(Burden(c, x, now), y.deadline - y.arrival)
                < A.Product(Burden(c, y, now), x.deadline - x.arrival)
  {
    ScoreIsBurden(c, x, now);
    ScoreIsBurden(c, y, now);
    CompareShifted(Score(c, x, now), Score(c, y, now), c.slackWeight,
                   x.deadline - x.arrival, y.deadline - y.arrival, Burden(c, x, now), Burden(c, y, now));
  }

  // ---------------------------------------------------------------- who goes first below the ceiling

  /** x and y sit in one tier below the ceiling, and both have a budget. */
  predicate Rivals(c: SloConfig, x: Envelope, y: Envelope, now: real, threshold: real)
    requires ValidSlo(c) && threshold > 0.0
  {
    && Tier(c, x, now, threshold) == Tier(c, y, now, threshold) < c.agingLevels
    && x.deadline > x.arrival && y.deadline > y.arrival
  }

  /** x goes before y by the score when gap is negative, after it when gap is positive, else by sequence number. */
  predicate GoesBy(c: SloConfig, x: Envelope, y: Envelope, now: real, threshold: real, gap: real)
    requires ValidSlo(c) && threshold > 0.0
  {
    var kx, ky := SloKey(c, x, now, threshold), SloKey(c, y, now, threshold);
    && (gap < 0.0 ==> Less(kx, ky))
    && (gap > 0.0 ==> Less(ky, kx))
    && (gap == 0.0 ==> (Less(kx, ky) <==> x.sequenceId < y.sequenceId))
  }

  /** Rivals are ordered by their burdens, each against the other's budget. */
  lemma RivalsCompare(c: SloConfig, x: Envelope, y: Envelope, now: real, threshold: real, gap: real)
    requires ValidSlo(c) && threshold > 0.0 && Rivals(c, x, y, now, threshold)
    requires gap == A.Product(Burden(c, x, now), y.deadline - y.arrival)
                    - A.Product(Burden(c, y, now), x.deadline - x.arrival)
    ensures GoesBy(c, x, y, now, threshold, gap)
  {
    ScoresCompare(c, x, y, now);
    ScoresCompare(c, y, x, now);
  }

  /** Requests that arrived together share their tier. */
  lemma ArrivedTogether(c: SloConfig, x: Envelope, y: Envelope, now: real, threshold: real)
    requires ValidSlo(c) && threshold > 0.0 && x.arrival == y.arrival && now - x.arrival < threshold
    ensures Tier(c, x, now, threshold) == Tier(c, y, now, threshold) < c.agingLevels
  {
    CeilingIsThreshold(c, x, now, threshold);
  }

  lemma Sign(a: real, b: real)
    requires b > 0.0
    ensures A.Product(a, b) < 0.0 <==> a < 0.0
    ensures A.Product(a, b) > 0.0 <==> a > 0.0
  {
    if a > 0.0 {
      A.SameSign(a, b);
    } else if a < 0.0 {
      A.SameSign(-a, b);
    }
  }

  /** Of two requests with one arrival and one deadline, less work goes first when work costs more than slack. */
  lemma WorkDecides(c: SloConfig, x: Envelope, y: Envelope, now: real, threshold: real)
    requires ValidSlo(c) && threshold > 0.0 && now - x.arrival < threshold
    requires x.arrival == y.arrival < x.deadline == y.deadline && Work(c, x) < Work(c, y)
    ensures GoesBy(c, x, y, now, threshold, c.slackWeight - c.costWeight)
  {
    var net, b, gap := c.costWeight - c.slackWeight, x.deadline - x.arrival, Work(c, x) - Work(c, y);
    ArrivedTogether(c, x, y, now, threshold);
    A.Distribute(Work(c, y), gap, net);
    assert Burden(c, x, now) == Burden(c, y, now) + A.Product(net, gap);
    A.Distribute(Burden(c, y, now), A.Product(net, gap), b);
    SignOfGap(net, gap);
    Sign(A.Product(net, gap), b);
    RivalsCompare(c, x, y, now, threshold, A.Product(A.Product(net, gap), b));
  }

  lemma SignOfGap(net: real, gap: real)
    requires gap < 0.0
    ensures A.Product(net, gap) < 0.0 <==> net > 0.0
    ensures A.Product(net, gap) > 0.0 <==> net < 0.0
  {
    Sign(net, -gap);
    assert A.Product(net, -gap) == -A.Product(net, gap);
  }

  /**
   Of two requests alike but for their visible length, the shorter goes first when work costs more than slack, last
   when it costs less, and the sequence number decides when it costs the same.
  */
  lemma LengthDecides(c: SloConfig, x: Envelope, y: Envelope, now: real, threshold: real)
    requires ValidSlo(c) && threshold > 0.0 && now - x.arrival < threshold
    requires !c.disableLengthEstimate && c.outputTokenSeconds > 0.0 && x.inputTokens == y.inputTokens
    requires x.arrival == y.arrival < x.deadline == y.deadline
    requires EstimatedOutputTokens(c, x) < EstimatedOutputTokens(c, y)
    ensures GoesBy(c, x, y, now, threshold, c.slackWeight - c.costWeight)
  {
    LongerIsMoreWork(c.outputTokenSeconds, EstimatedOutputTokens(c, x), EstimatedOutputTokens(c, y));
    WorkDecides(c, x, y, now, threshold);
  }

  lemma LongerIsMoreWork(rate: real, short: real, long: real)
    requires rate > 0.0 && short < long
    ensures A.Product(rate, short) < A.Product(rate, long)
  {
    A.SameSign(rate, long - short);
    A.Distribute(short, long - short, rate);
  }

  /**
   Of two requests with one arrival and equal work, the earlier deadline goes first exactly while the wait weighs more
   than the work.
  */
  lemma DeadlineDecides(c: SloConfig, x: Envelope, y: Envelope, now: real, threshold: real)
    requires ValidSlo(c) && threshold > 0.0 && now - x.arrival < threshold
    requires x.arrival == y.arrival < x.deadline < y.deadline && Work(c, x) == Work(c, y)
    ensures GoesBy(c, x, y, now, threshold, Burden(c, x, now))
  {
    var burden, later := Burden(c, x, now), y.deadline - x.deadline;
    ArrivedTogether(c, x, y, now, threshold);
    A.Distribute(x.deadline - x.arrival, later, burden);
    Sign(burden, later);
    RivalsCompare(c, x, y, now, threshold, A.Product(burden, later));
  }

  /** Of two rivals with equal budgets and equal work, the earlier arrival goes first unless waiting has no price. */
  lemma ArrivalDecides(c: SloConfig, x: Envelope, y: Envelope, now: real, threshold: real)
    requires ValidSlo(c) && threshold > 0.0 && Rivals(c, x, y, now, threshold)
    requires x.arrival < y.arrival && x.deadline - x.arrival == y.deadline - y.arrival && Work(c, x) == Work(c, y)
    ensures GoesBy(c, x, y, now, threshold, -(c.slackWeight + c.waitingWeight))
  {
    var price, b, earlier := c.slackWeight + c.waitingWeight, x.deadline - x.arrival, x.arrival - y.arrival;
    A.Distribute(now - y.arrival, -earlier, price);
    assert Burden(c, x, now) == Burden(c, y, now) + -A.Product(price, -earlier);
    A.Distribute(Burden(c, y, now), -A.Product(price, -earlier), b);
    Sign(price, -earlier);
    Sign(-A.Product(price, -earlier), b);
    RivalsCompare(c, x, y, now, threshold, A.Product(-A.Product(price, -earlier), b));
  }

  /** Without length estimates, requests with one arrival and one deadline go in sequence. */
  lemma NoEstimateNoPreference(c: SloConfig, x: Envelope, y: Envelope, now: real, threshold: real)
    requires ValidSlo(c) && threshold > 0.0 && now - x.arrival < threshold && c.disableLengthEstimate
    requires x.arrival == y.arrival < x.deadline == y.deadline
    ensures GoesBy(c, x, y, now, threshold, 0.0)
  {
    ArrivedTogether(c, x, y, now, threshold);
    RivalsCompare(c, x, y, now, threshold, 0.0);
  }

  /** The SLO-aware policy never picks the longer of two such requests while work costs more than slack. */
  lemma ShorterIsPicked(c: SloConfig, es: seq<Envelope>, now: real, i: nat, j: nat)
    requires ValidSlo(c) && i < |es| && j < |es| && now - es[i].arrival < Threshold(c, es, now)
    requires !c.disableLengthEstimate && c.outputTokenSeconds > 0.0 && es[i].inputTokens == es[j].inputTokens
    requires es[i].arrival == es[j].arrival < es[i].deadline == es[j].deadline && c.costWeight > c.slackWeight
    requires EstimatedOutputTokens(c, es[i]) < EstimatedOutputTokens(c, es[j])
    ensures Head(SloAware(c), es, now) != j
  {
    LengthDecides(c, es[i], es[j], now, Threshold(c, es, now));
    assert !Less(RankKey(SloAware(c), es, es[i], now),
                 RankKey(SloAware(c), es, es[Head(SloAware(c), es, now)], now));
  }
}
