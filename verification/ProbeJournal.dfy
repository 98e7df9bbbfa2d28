/**
 What the probe did to each request: when it was sent, when its backend call ends, and the decision made for it; and
 what that journal says about the slots in use at any moment.
*/
module ProbeJournal {
  import opened AdaptiveClipping
  import opened ControllerLog
  import opened Models
  import opened TraceStatistics
  import opened Wrappers
  import C = Clipping
  import Sorting = Statistics

  const MAX_IN_FLIGHT := 4

  /** The waiting requests that remain once `waiting` of them have filled the slots `busy` leaves free. */
  function LeftAfterFill(waiting: nat, busy: nat): nat {
    if waiting + busy > MAX_IN_FLIGHT then waiting + busy - MAX_IN_FLIGHT else 0
  }

  /** The learned predictor: a bucket median that ignores input length and advertised cap. */
  type Predictor = (RequestClass, Option<string>) -> real

  function Predict(
    p: Predictor, requestClass: RequestClass, inputTokens: nat, promptKind: Option<string>,
    advertisedCap: Option<nat>): real
  {
    p(requestClass, promptKind)
  }

  /** The clipper's estimate, which falls back to the target when no cap is advertised. */
  function Estimator(p: Predictor): C.Estimator {
    (e: Envelope) => Predict(p, e.requestClass, e.inputTokens, e.promptKind,
                             if e.advertisedCap.Some? then e.advertisedCap else Some(e.maxOutputTokens))
  }

  function ServiceTime(outputTokens: nat): (s: real)
    ensures s > 0.0
  {
    0.01494 * outputTokens as real + 0.0156
  }

  predicate Publishable(cap: Option<int>) {
    cap.Some? ==> cap.value >= 1
  }

  /** When a request sent at `time` under a cap leaves the backend. */
  function EndOf(p: Predictor, e: Envelope, cap: Option<int>, time: real): real
    requires Publishable(cap)
  {
    time + ServiceTime(EffectiveMax(C.Capped(Estimator(p), e, cap)))
  }

  /**
   The backend call of a fresh request takes a fixed time and a time per token; the tokens are its target, or the cap
   where both target and prediction for its class and kind exceed it.
  */
  lemma EndIsCappedService(p: Predictor, e: Envelope, cap: Option<int>, time: real)
    requires ValidEnvelope(e) && e.backendMax.None? && Publishable(cap)
    ensures var predicted := p(e.requestClass, e.promptKind);
            var capped := cap.Some? && predicted > cap.value as real && e.maxOutputTokens > cap.value;
            var tokens := if capped then cap.value else e.maxOutputTokens;
            EndOf(p, e, cap, time) == time + tokens as real * 0.01494 + 0.0156
  {
  }

  /** Entry i belongs to request i. */
  datatype Journal = Journal(times: seq<real>, ends: seq<real>, decisions: seq<Decision>)

  /** One decision per request sent, made when it was sent; it stays in service for its own capped length. */
  ghost predicate Priced(requests: seq<Envelope>, p: Predictor, j: Journal) {
    && |j.times| == |j.ends| == |j.decisions| <= |requests|
    && forall i :: 0 <= i < |j.times| ==> PricedAt(requests[i], p, j.times[i], j.ends[i], j.decisions[i])
  }

  ghost predicate PricedAt(e: Envelope, p: Predictor, time: real, end: real, d: Decision) {
    Publishable(d.selectedCap) && d.time == time && end == EndOf(p, e, d.selectedCap, time)
  }

  /** The requests in service at t. */
  function Busy(times: seq<real>, ends: seq<real>, t: real): (n: nat)
    requires |times| == |ends|
  {
    if |times| == 0 then 0
    else
      var k := |times| - 1;
      Busy(times[..k], ends[..k], t) + if times[k] <= t < ends[k] then 1 else 0
  }

  /** The level the first n decisions leave the controller at. */
  function LevelAfter(decisions: seq<Decision>, n: nat): nat
    requires n <= |decisions|
  {
    if n == 0 then 0 else decisions[n - 1].newLevel
  }

  /**
   The first `served` requests, and no others, were sent before the span, and its level is the last decided for them;
   during it at most MAX_IN_FLIGHT requests are in service, all slots when one waits.
  */
  ghost predicate SpanRecorded(j: Journal, s: Span)
    requires |j.times| == |j.ends|
  {
    && s.served <= |j.decisions| && s.level == LevelAfter(j.decisions, s.served)
    && (forall i :: 0 <= i < |j.times| ==> if i < s.served then j.times[i] <= s.start else j.times[i] >= s.end)
    && forall t :: s.start <= t < s.end ==>
         Busy(j.times, j.ends, t) <= MAX_IN_FLIGHT && (s.depth > 0 ==> Busy(j.times, j.ends, t) == MAX_IN_FLIGHT)
  }

  ghost predicate AllRecorded(j: Journal, spans: seq<Span>, now: real)
    requires |j.times| == |j.ends|
  {
    |spans| == 0 ||
    (var s := spans[|spans| - 1]; s.end <= now && SpanRecorded(j, s) && AllRecorded(j, spans[..|spans| - 1], now))
  }

  /** The heap holds exactly the ends still to come. */
  ghost predicate Pending(completions: seq<real>, ends: seq<real>, now: real) {
    forall x :: multiset(completions)[x] == if x > now then multiset(ends)[x] else 0
  }

  // ---------------------------------------------------------------- pending completions

  lemma ServingIsPending(completions: seq<real>, ends: seq<real>, now: real, end: real)
    requires Pending(completions, ends, now) && end > now
    ensures Pending(Sorting.Insert(end, completions), ends + [end], now)
  {
    assert multiset(ends + [end]) == multiset(ends) + multiset{end};
  }

  /** The completions that are not due at `now`, given that none is overdue. */
  function NotDue(completions: seq<real>, now: real): (r: seq<real>)
    ensures |r| <= |completions|
    ensures |completions| > 0 && completions[0] == now ==> |r| < |completions|
  {
    if |completions| > 0 && completions[0] == now then NotDue(completions[1..], now) else completions
  }

  lemma {:induction false} NotDueIsLater(completions: seq<real>, now: real)
    requires Sorting.Ascending(completions) && forall i :: 0 <= i < |completions| ==> completions[i] >= now
    ensures Sorting.Ascending(NotDue(completions, now))
    ensures forall i :: 0 <= i < |NotDue(completions, now)| ==> NotDue(completions, now)[i] > now
  {
    if |completions| > 0 && completions[0] == now {
      NotDueIsLater(completions[1..], now);
    }
  }

  lemma {:induction false} NotDueCounts(completions: seq<real>, now: real, x: real)
    requires Sorting.Ascending(completions) && forall i :: 0 <= i < |completions| ==> completions[i] >= now
    ensures multiset(NotDue(completions, now))[x] == if x > now then multiset(completions)[x] else 0
  {
    if |completions| > 0 && completions[0] == now {
      NotDueCounts(completions[1..], now, x);
      assert completions == [completions[0]] + completions[1..];
    } else if x in multiset(completions) {
      var i :| 0 <= i < |completions| && completions[i] == x;
      assert completions[0] <= completions[i];
    }
  }

  lemma PassingIsPending(completions: seq<real>, ends: seq<real>, previous: real, now: real)
    requires Pending(completions, ends, previous) && previous <= now
    requires Sorting.Ascending(completions) && forall i :: 0 <= i < |completions| ==> completions[i] >= now
    ensures Pending(NotDue(completions, now), ends, now)
  {
    forall x ensures multiset(NotDue(completions, now))[x] == if x > now then multiset(ends)[x] else 0 {
      NotDueCounts(completions, now, x);
    }
  }

  function EndingAfter(ends: seq<real>, t: real): seq<real> {
    if |ends| == 0 then []
    else
      var before, last := EndingAfter(ends[..|ends| - 1], t), ends[|ends| - 1];
      if last > t then before + [last] else before
  }

  lemma {:induction false} EndingAfterCounts(ends: seq<real>, t: real)
    ensures forall x :: multiset(EndingAfter(ends, t))[x] == if x > t then multiset(ends)[x] else 0
  {
    if |ends| > 0 {
      EndingAfterCounts(ends[..|ends| - 1], t);
      assert ends == ends[..|ends| - 1] + [ends[|ends| - 1]];
    }
  }

  lemma {:induction false} BusyEndsAfter(times: seq<real>, ends: seq<real>, t: real)
    requires |times| == |ends| && forall i :: 0 <= i < |times| ==> times[i] <= t
    ensures Busy(times, ends, t) == |EndingAfter(ends, t)|
  {
    if |times| > 0 {
      BusyEndsAfter(times[..|times| - 1], ends[..|times| - 1], t);
    }
  }

  /** When everything recorded was sent by t, the slots in use at t are the completions still to come. */
  lemma BusyIsPending(times: seq<real>, ends: seq<real>, completions: seq<real>, t: real)
    requires |times| == |ends| && (forall i :: 0 <= i < |times| ==> times[i] <= t) && Pending(completions, ends, t)
    ensures Busy(times, ends, t) == |completions|
  {
    EndingAfterCounts(ends, t);
    BusyEndsAfter(times, ends, t);
    var after := EndingAfter(ends, t);
    forall x ensures multiset(after)[x] == multiset(completions)[x] {
    }
    assert multiset(after) == multiset(completions);
    assert |multiset(after)| == |after| && |multiset(completions)| == |completions|;
  }

  lemma {:induction false} BusyFalls(times: seq<real>, ends: seq<real>, now: real, t: real)
    requires |times| == |ends| && now <= t && forall i :: 0 <= i < |times| ==> times[i] <= now
    ensures Busy(times, ends, t) <= Busy(times, ends, now)
  {
    if |times| > 0 {
      BusyFalls(times[..|times| - 1], ends[..|times| - 1], now, t);
    }
  }

  lemma {:induction false} NothingBusyBefore(times: seq<real>, ends: seq<real>, t: real)
    requires |times| == |ends| && forall i :: 0 <= i < |times| ==> times[i] > t
    ensures Busy(times, ends, t) == 0
  {
    if |times| > 0 {
      NothingBusyBefore(times[..|times| - 1], ends[..|times| - 1], t);
    }
  }

  // ---------------------------------------------------------------- the journal as it grows

  /** The journal and the controller agree at `now`. */
  ghost predicate Kept(
    requests: seq<Envelope>, p: Predictor, cfg: Config, decay: real -> real, j: Journal, completions: seq<real>,
    spans: seq<Span>, signal: Signal, levels: LevelState, now: real)
  {
    && Priced(requests, p, j) && Sorting.Ascending(j.times) && (forall i :: 0 <= i < |j.times| ==> j.times[i] <= now)
    && Pending(completions, j.ends, now)
    && AllRecorded(j, spans, now)
    && Authored(cfg, decay, j.decisions, signal, levels)
    && LevelAfter(j.decisions, |j.decisions|) == levels.level
  }

  const BLANK := Journal([], [], [])

  lemma BlankIsKept(requests: seq<Envelope>, p: Predictor, cfg: Config, decay: real -> real, now: real)
    requires ValidConfig(cfg)
    ensures Kept(requests, p, cfg, decay, BLANK, [], [], QUIET, INITIAL, now)
  {
    NothingWritten(cfg, decay);
    assert Authored(cfg, decay, [], QUIET, INITIAL);
  }

  function Entered(j: Journal, time: real, end: real, d: Decision): Journal {
    Journal(j.times + [time], j.ends + [end], j.decisions + [d])
  }

  /** A later entry changes nothing about the spans before it. */
  lemma {:induction false} EnteringKeepsSpans(j: Journal, j': Journal, spans: seq<Span>, now: real)
    requires |j.times| == |j.ends| == |j.decisions| && AllRecorded(j, spans, now)
    requires |j'.times| == |j'.ends| == |j.times| + 1 && j'.times[..|j.times|] == j.times
        && j'.ends[..|j.ends|] == j.ends
    requires j'.times[|j.times|] == now && |j'.decisions| > 0 && j'.decisions[..|j'.decisions| - 1] == j.decisions
    ensures AllRecorded(j', spans, now)
  {
    if |spans| > 0 {
      EnteringKeepsSpans(j, j', spans[..|spans| - 1], now);
      var s := spans[|spans| - 1];
      assert s.served > 0 ==> j'.decisions[s.served - 1] == j.decisions[s.served - 1];
      forall t | s.start <= t < s.end ensures Busy(j'.times, j'.ends, t) == Busy(j.times, j.ends, t) {
      }
    }
  }

  lemma {:induction false} LaterKeepsSpans(j: Journal, spans: seq<Span>, now: real, later: real)
    requires |j.times| == |j.ends| && AllRecorded(j, spans, now) && now <= later
    ensures AllRecorded(j, spans, later)
  {
    if |spans| > 0 {
      LaterKeepsSpans(j, spans[..|spans| - 1], now, later);
    }
  }

  /** Sending the next request under the controller's decision keeps the journal. */
  lemma ServingIsKept(
    requests: seq<Envelope>, p: Predictor, cfg: Config, decay: real -> real, j: Journal, completions: seq<real>,
    spans: seq<Span>, signal: Signal, levels: LevelState, now: real,
    q: nat, d: Decision, signal': Signal, levels': LevelState, end: real)
    requires Kept(requests, p, cfg, decay, j, completions, spans, signal, levels, now)
    requires |j.times| < |requests| && Publishable(d.selectedCap)
    requires end == EndOf(p, requests[|j.times|], d.selectedCap, now) && end > now
    requires signal.last.Some? ==> signal.last.value <= now
    requires DecidedBy(cfg, decay, signal, levels, q, now, d, signal', levels')
    ensures Kept(requests, p, cfg, decay, Entered(j, now, end, d), Sorting.Insert(end, completions),
                 spans, signal', levels', now)
  {
    var j' := Entered(j, now, end, d);
    UpdateIsAuthored(cfg, decay, j.decisions, signal, levels, q, now, d, signal', levels');
    ServingIsPending(completions, j.ends, now, end);
    EnteringKeepsSpans(j, j', spans, now);
    EnteringIsPriced(requests, p, j, j', now, end, d);
  }

  lemma EnteringIsPriced(requests: seq<Envelope>, p: Predictor, j: Journal, j': Journal, now: real, end: real,
      d: Decision)
    requires Priced(requests, p, j) && |j.times| < |requests| && PricedAt(requests[|j.times|], p, now, end, d)
    requires j'.times == j.times + [now] && j'.ends == j.ends + [end] && j'.decisions == j.decisions + [d]
    ensures Priced(requests, p, j')
  {
    forall i | 0 <= i < |j'.times| ensures PricedAt(requests[i], p, j'.times[i], j'.ends[i], j'.decisions[i]) {
      if i < |j.times| {
        assert PricedAt(requests[i], p, j.times[i], j.ends[i], j.decisions[i]);
      }
    }
  }

  /** A span in which nothing is sent and nothing completes uses the pending slots throughout. */
  lemma QuietSpanIsRecorded(j: Journal, completions: seq<real>, previous: real, now: real, s: Span)
    requires |j.times| == |j.ends| && |j.decisions| == |j.times| == s.served
        && s.level == LevelAfter(j.decisions, s.served)
    requires forall i :: 0 <= i < |j.times| ==> j.times[i] <= previous
    requires Pending(completions, j.ends, previous) && forall i :: 0 <= i < |completions| ==> completions[i] >= now
    requires |completions| <= MAX_IN_FLIGHT && (s.depth > 0 ==> |completions| == MAX_IN_FLIGHT)
    requires s.start == previous && s.end == now
    ensures SpanRecorded(j, s)
  {
    forall t | s.start <= t < s.end ensures Busy(j.times, j.ends, t) == |completions| {
      forall x ensures multiset(completions)[x] == if x > t then multiset(j.ends)[x] else 0 {
        if x in multiset(completions) {
          assert x in completions;
        }
        if previous < x <= t {
          assert multiset(completions)[x] == multiset(j.ends)[x];
        }
      }
      BusyIsPending(j.times, j.ends, completions, t);
    }
  }

  /** Letting time pass to the next event keeps the journal. */
  lemma PassingIsKept(
    requests: seq<Envelope>, p: Predictor, cfg: Config, decay: real -> real, j: Journal, completions: seq<real>,
    spans: seq<Span>, signal: Signal, levels: LevelState, previous: real, now: real, s: Span, spans': seq<Span>)
    requires Kept(requests, p, cfg, decay, j, completions, spans, signal, levels, previous) && previous <= now
    requires Sorting.Ascending(completions) && forall i :: 0 <= i < |completions| ==> completions[i] >= now
    requires |completions| <= MAX_IN_FLIGHT && (s.depth > 0 ==> |completions| == MAX_IN_FLIGHT)
    requires s.start == previous && s.end == now && s.served == |j.times| && s.level == levels.level
    requires spans' == if previous < now then spans + [s] else spans
    ensures Kept(requests, p, cfg, decay, j, NotDue(completions, now), spans', signal, levels, now)
  {
    PassingIsPending(completions, j.ends, previous, now);
    LaterKeepsSpans(j, spans, previous, now);
    QuietSpanIsRecorded(j, completions, previous, now, s);
    assert (spans + [s])[..|spans|] == spans;
  }

  // ---------------------------------------------------------------- the finished journal

  lemma {:induction false} SomeSpanCovers(j: Journal, spans: seq<Span>, from: real, to: real, now: real, t: real)
    requires |j.times| == |j.ends| && AllRecorded(j, spans, now) && Contiguous(spans, from, to) && from <= t < to
    ensures Busy(j.times, j.ends, t) <= MAX_IN_FLIGHT
    decreases |spans|
  {
    var s := spans[|spans| - 1];
    if t < s.start {
      SomeSpanCovers(j, spans[..|spans| - 1], from, s.start, now, t);
    } else {
      assert SpanRecorded(j, s);
    }
  }

  lemma {:induction false} RecordedAt(j: Journal, spans: seq<Span>, now: real, k: nat)
    requires |j.times| == |j.ends| && AllRecorded(j, spans, now) && k < |spans|
    ensures SpanRecorded(j, spans[k])
  {
    if k < |spans| - 1 {
      RecordedAt(j, spans[..|spans| - 1], now, k);
    }
  }
}
