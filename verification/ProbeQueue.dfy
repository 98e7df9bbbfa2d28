/**
 The probe's waiting line: requests are served strictly in list order, and every recorded span of the trace tells
 which stretch of the list was waiting.
*/
module ProbeQueue {
  import opened Models
  import opened ProbeJournal
  import opened TraceStatistics
  import Sorting = Statistics

  predicate Fresh(requests: seq<Envelope>) {
    forall i :: 0 <= i < |requests| ==> ValidEnvelope(requests[i]) && requests[i].backendMax.None?
  }

  ghost predicate NoEarlier(requests: seq<Envelope>, i: nat)
    requires 0 < i < |requests|
  {
    requests[i - 1].arrival <= requests[i].arrival
  }

  /** The first n arrivals never go back in time. */
  ghost predicate InArrivalOrder(requests: seq<Envelope>, n: nat)
    requires n <= |requests|
  {
    forall i :: 0 < i < n ==> NoEarlier(requests, i)
  }

  lemma OrderGrows(requests: seq<Envelope>, n: nat)
    requires n < |requests| && InArrivalOrder(requests, n)
    requires n > 0 ==> requests[n - 1].arrival <= requests[n].arrival
    ensures InArrivalOrder(requests, n + 1)
  {
  }

  lemma {:induction false} FirstComesFirst(requests: seq<Envelope>, n: nat, i: nat)
    requires i < n <= |requests| && InArrivalOrder(requests, n)
    ensures requests[0].arrival <= requests[i].arrival
  {
    if i > 0 {
      assert NoEarlier(requests, i);
      FirstComesFirst(requests, n, i - 1);
    }
  }

  // ---------------------------------------------------------------- what a running simulation keeps

  /** The waiting list is exactly the stretch of the list between the served and the arrived requests. */
  ghost predicate Queued(requests: seq<Envelope>, served: nat, waiting: seq<Envelope>, next: nat) {
    served <= next <= |requests| && waiting == requests[served..next]
  }

  ghost predicate InService(completions: seq<real>, now: real) {
    && Sorting.Ascending(completions) && |completions| <= MAX_IN_FLIGHT
    && forall i :: 0 <= i < |completions| ==> completions[i] > now
  }

  /** Each served request left the queue no earlier than it came, in order, up to now. */
  ghost predicate Departures(requests: seq<Envelope>, times: seq<real>, lastDispatch: real, now: real) {
    && 0 < |requests| && |times| <= |requests|
    && (forall i :: 0 <= i < |times| ==> requests[i].arrival <= times[i] <= lastDispatch <= now)
    && lastDispatch == (if |times| == 0 then requests[0].arrival else times[|times| - 1])
  }

  /** During the span exactly the requests served..served+depth have arrived and not left. */
  ghost predicate Truthful(requests: seq<Envelope>, times: seq<real>, next: nat, s: Span) {
    && s.served + s.depth <= next <= |requests|
    && s.served <= |times|
    && (forall i :: 0 <= i < s.served ==> times[i] <= s.start)
    && (forall i :: s.served <= i < |times| ==> times[i] >= s.end)
    && (forall i :: s.served <= i < s.served + s.depth ==> requests[i].arrival <= s.start)
    && (forall i :: s.served + s.depth <= i < next ==> requests[i].arrival >= s.end)
  }

  /** Every span of the trace up to `now` is true. */
  ghost predicate AllTruthful(requests: seq<Envelope>, times: seq<real>, next: nat, spans: seq<Span>, now: real) {
    |spans| == 0 ||
    (var s := spans[|spans| - 1];
     s.end <= now && Truthful(requests, times, next, s)
         && AllTruthful(requests, times, next, spans[..|spans| - 1], now))
  }

  /** A later dispatch leaves every span true. */
  lemma {:induction false} DispatchKeepsTruth(requests: seq<Envelope>, times: seq<real>, next: nat, spans: seq<Span>,
      now: real)
    requires AllTruthful(requests, times, next, spans, now)
    ensures AllTruthful(requests, times + [now], next, spans, now)
  {
    if |spans| > 0 {
      DispatchKeepsTruth(requests, times, next, spans[..|spans| - 1], now);
    }
  }

  /** So does a later arrival. */
  lemma {:induction false} ArrivalKeepsTruth(requests: seq<Envelope>, times: seq<real>, next: nat, spans: seq<Span>,
      now: real)
    requires next < |requests| && requests[next].arrival == now && AllTruthful(requests, times, next, spans, now)
    ensures AllTruthful(requests, times, next + 1, spans, now)
  {
    if |spans| > 0 {
      ArrivalKeepsTruth(requests, times, next, spans[..|spans| - 1], now);
    }
  }

  lemma {:induction false} TimeKeepsTruth(requests: seq<Envelope>, times: seq<real>, next: nat, spans: seq<Span>,
      now: real, later: real)
    requires now <= later && AllTruthful(requests, times, next, spans, now)
    ensures AllTruthful(requests, times, next, spans, later)
  {
    if |spans| > 0 {
      TimeKeepsTruth(requests, times, next, spans[..|spans| - 1], now, later);
    }
  }

  /** The queue's part of a running simulation at time `now`. */
  ghost predicate Sound(
    requests: seq<Envelope>, times: seq<real>, waiting: seq<Envelope>, next: nat,
    completions: seq<real>, lastDispatch: real, spans: seq<Span>, now: real)
  {
    && Queued(requests, |times|, waiting, next)
    && InService(completions, now)
    && Departures(requests, times, lastDispatch, now)
    && AllTruthful(requests, times, next, spans, now)
    && (forall i :: 0 <= i < next ==> requests[i].arrival <= now)
  }

  lemma ServingIsSound(
    requests: seq<Envelope>, times: seq<real>, waiting: seq<Envelope>, next: nat,
    completions: seq<real>, lastDispatch: real, spans: seq<Span>, now: real, completion: real)
    requires Sound(requests, times, waiting, next, completions, lastDispatch, spans, now)
    requires |waiting| > 0 && |completions| < MAX_IN_FLIGHT && completion > now
    ensures Sound(requests, times + [now], waiting[1..], next,
                  Sorting.Insert(completion, completions), now, spans, now)
  {
    DispatchKeepsTruth(requests, times, next, spans, now);
    InsertKeepsService(completions, completion, now);
  }

  lemma InsertKeepsService(completions: seq<real>, completion: real, now: real)
    requires InService(completions, now) && |completions| < MAX_IN_FLIGHT && completion > now
    ensures InService(Sorting.Insert(completion, completions), now)
  {
    Sorting.InsertAscends(completion, completions);
    var r := Sorting.Insert(completion, completions);
    forall i | 0 <= i < |r| ensures r[i] > now {
      assert r[i] in multiset(r);
      assert r[i] == completion || r[i] in completions;
    }
  }

  // ---------------------------------------------------------------- the passage of time

  /** Letting time pass to the next event books a truthful span. */
  lemma PassingIsSound(
    requests: seq<Envelope>, times: seq<real>, waiting: seq<Envelope>, next: nat,
    completions: seq<real>, lastDispatch: real, spans: seq<Span>, previous: real, now: real, s: Span, spans': seq<Span>)
    requires Sound(requests, times, waiting, next, completions, lastDispatch, spans, previous)
    requires previous <= now && (|completions| > 0 ==> now <= completions[0])
    requires s.start == previous && s.end == now && s.depth == |waiting| && s.served == |times|
    requires spans' == if previous < now then spans + [s] else spans
    ensures Sound(requests, times, waiting, next, NotDue(completions, now), lastDispatch, spans', now)
  {
    NotDueIsLater(completions, now);
    TimeKeepsTruth(requests, times, next, spans, previous, now);
    assert Truthful(requests, times, next, s) && (spans + [s])[..|spans|] == spans;
  }

  lemma ArrivingIsSound(
    requests: seq<Envelope>, times: seq<real>, waiting: seq<Envelope>, next: nat,
    completions: seq<real>, lastDispatch: real, spans: seq<Span>, now: real)
    requires Sound(requests, times, waiting, next, completions, lastDispatch, spans, now)
    requires next < |requests| && requests[next].arrival == now
    ensures Sound(requests, times, waiting + [requests[next]], next + 1, completions, lastDispatch, spans, now)
  {
    ArrivalKeepsTruth(requests, times, next, spans, now);
    assert requests[|times|..next + 1] == requests[|times|..next] + [requests[next]];
  }

  lemma PassingIsContiguous(spans: seq<Span>, from: real, previous: real, now: real, s: Span, spans': seq<Span>)
    requires Contiguous(spans, from, previous) && previous <= now
    requires s.start == previous && s.end == now
    requires spans' == if previous < now then spans + [s] else spans
    ensures Contiguous(spans', from, now)
  {
    assert (spans + [s])[..|spans|] == spans;
  }
}
