/**
 The deterministic CPU probe: an event-driven queue that drives the real controller and clipper over one list of
 arrivals, with its trace checked against the set of waiting requests.
*/
module LowLoadProbe {
  import opened AdaptiveClipping
  import opened ControllerLog
  import opened Models
  import opened ProbeDepths
  import opened ProbeJournal
  import opened ProbeQueue
  import opened ProbeScript
  import opened TraceStatistics
  import opened Wrappers
  import A = Arithmetic
  import C = Clipping
  import D = DepthConservation
  import H = ControllerHistory
  import R = DepthReplay
  import Sorting = Statistics

  datatype ProbeError = NegativeInterval | ControllerRefused | CapRefused | PastFinalDispatch | ClipCountDisagrees

  /** From the first on, the decisions were all made at `now` about depth q. */
  ghost predicate AllTold(decisions: seq<Decision>, first: nat, now: real, q: nat) {
    forall k :: first <= k < |decisions| ==> decisions[k].time == now && decisions[k].qInst == q
  }

  lemma ToldOneMore(decisions: seq<Decision>, first: nat, now: real, d: Decision)
    requires AllTold(decisions, first, now, d.qInst) && d.time == now
    ensures AllTold(decisions + [d], first, now, d.qInst)
  {
  }

  /** Each threshold's episodes are those of the recorded trace. */
  ghost predicate EpisodesListed(totals: Totals)
    reads totals`episodes, totals`spans
  {
    && |totals.episodes| == |DEPTH_THRESHOLDS|
    && forall i :: 0 <= i < |DEPTH_THRESHOLDS| ==>
         totals.episodes[i] == EpisodesIn(totals.spans, DEPTH_THRESHOLDS[i])
  }

  class Simulation {
    const requests: seq<Envelope>
    const predictor: Predictor
    const controller: Controller
    const totals: Totals
    var waiting: seq<Envelope>
    var completions: seq<real>
    var nextArrival: nat
    var currentDepth: nat
    var currentLevel: nat
    var previousTime: real
    var lastDispatch: real
    ghost var journal: Journal
    ghost var script: seq<Event>
    ghost var views: seq<View>

    /** The controller is in step with the clock, and every clip was expected. */
    ghost predicate InStep(now: real)
      reads `currentLevel, controller, totals
    {
      && controller.Valid() && (controller.lastUpdate.Some? ==> controller.lastUpdate.value <= now)
      && currentLevel == controller.level
      && totals.Valid() && totals.conditionMet == totals.clipsApplied
    }

    ghost function Parameters(): Setting {
      Setting(requests, predictor, controller.cfg, controller.decay)
    }

    ghost function Standing(now: real): View
      reads `waiting, `nextArrival, `completions, `lastDispatch, `journal, totals`spans, controller
    {
      View(now, waiting, nextArrival, completions, lastDispatch, journal, totals.spans, controller.Depth(),
          controller.Levels())
    }

    /** What holds at every point of a run at time `now`: the script so far leads here. */
    ghost predicate Running(now: real)
      reads `waiting, `nextArrival, `completions, `lastDispatch, `journal, `script, `views, `currentLevel, controller,
          totals
    {
      Fresh(requests) && |requests| > 0 && InStep(now) && Leads(Parameters(), script, views, Standing(now))
    }

    /** What a running simulation knows about its line. */
    lemma LineFacts(now: real)
      requires Running(now)
      ensures |journal.times| + |waiting| == nextArrival <= |requests|
      ensures nextArrival > 0 ==> requests[nextArrival - 1].arrival <= now
      ensures |completions| <= MAX_IN_FLIGHT && (|completions| > 0 ==> completions[0] > now)
      ensures |waiting| > 0 ==> |journal.times| < |requests| && waiting[0] == requests[|journal.times|]
    {
      ScriptsAreSane(Parameters(), script, views, Standing(now), |script|);
      HeadIsNext(Parameters(), Standing(now));
    }

    constructor (cfg: Config, decay: real -> real, requests: seq<Envelope>, predictor: Predictor)
      requires ValidConfig(cfg) && Fresh(requests) && |requests| > 0
      ensures this.requests == requests && this.predictor == predictor && previousTime == requests[0].arrival
      ensures controller.cfg == cfg && controller.decay == decay
      ensures Running(previousTime) && nextArrival == 0 && completions == [] && waiting == []
      ensures totals.spans == [] && totals.Charted() && fresh(controller) && fresh(totals) && currentDepth == 0
    {
      this.requests := requests;
      this.predictor := predictor;
      controller := new Controller(cfg, decay);
      totals := new Totals();
      waiting := [];
      completions := [];
      nextArrival := 0;
      currentDepth := 0;
      currentLevel := 0;
      previousTime := requests[0].arrival;
      lastDispatch := requests[0].arrival;
      journal := BLANK;
      script := [];
      views := [Start(Setting(requests, predictor, cfg, decay))];
    }

    /** A request of this very moment waits only once the moment's arrivals are all in. */
    ghost predicate Ripe(now: real)
      reads `waiting, `nextArrival
    {
      nextArrival < |requests| && requests[nextArrival].arrival == now ==>
        forall i :: 0 <= i < |waiting| ==> waiting[i].arrival != now
    }

    /** No earlier request waits beside a free slot. */
    ghost predicate Filled(now: real)
      reads `waiting, `completions
    {
      |waiting| > 0 && |completions| < MAX_IN_FLIGHT ==> waiting[0].arrival == now
    }

    lemma HeadIsFresh(now: real)
      requires Running(now) && |waiting| > 0
      ensures ValidEnvelope(waiting[0]) && waiting[0].backendMax.None?
    {
      LineFacts(now);
    }

    /** Consults the controller at a dispatch; it cannot refuse. */
    method Consult(stable: nat, now: real) returns (r: Result<Option<int>, ProbeError>, ghost d: Decision)
      requires InStep(now)
      modifies controller, `currentLevel
      ensures r == Result.Success(d.selectedCap) && InStep(now)
      ensures Publishable(d.selectedCap)
      ensures DecidedBy(controller.cfg, controller.decay, old(controller.Depth()), old(controller.Levels()), stable,
          now, d, controller.Depth(), controller.Levels())
    {
      var updated := controller.Update(stable, now);
      if updated.Failure? {
        r := Result.Failure(ControllerRefused);
        return;
      }
      d := updated.value;
      currentLevel := updated.value.newLevel;
      r := Result.Success(updated.value.selectedCap);
    }

    /** Caps a request and counts the clip; the probe's own condition agrees with the clipper. */
    method Clip(request: Envelope, cap: Option<int>, now: real) returns (r: Result<Envelope, ProbeError>)
      requires InStep(now) && ValidEnvelope(request) && request.backendMax.None?
      requires cap.Some? ==> cap.value >= 1
      modifies totals`conditionMet, totals`clipsApplied
      ensures r == Result.Success(C.Capped(Estimator(predictor), request, cap)) && InStep(now)
      ensures var expected := cap.Some? && Estimator(predictor)(request) > cap.value as real
          && request.maxOutputTokens > cap.value;
              totals.conditionMet == old(totals.conditionMet) + if expected then 1 else 0
    {
      var met := false;
      if cap.Some? {
        var predicted :=
            Predict(predictor, request.requestClass, request.inputTokens, request.promptKind, request.advertisedCap);
        met := predicted > cap.value as real && request.maxOutputTokens > cap.value;
      }
      var effective := C.ApplyAdaptiveCap(true, Estimator(predictor), request, cap);
      if effective.Failure? {
        return Result.Failure(CapRefused);
      }
      C.CappedIsAllowed(Estimator(predictor), request, cap);
      totals.CountClip(met, ClipApplied(effective.value));
      r := Result.Success(effective.value);
    }

    /** Consults the controller and caps the head of the line as it says: the line's next event is allowed. */
    method Decide(stable: nat, now: real) returns (r: Result<Envelope, ProbeError>, ghost d: Decision)
      requires InStep(now) && |waiting| > 0 && |completions| < MAX_IN_FLIGHT && Ripe(now)
      requires ValidEnvelope(waiting[0]) && waiting[0].backendMax.None?
      requires stable == LeftAfterFill(|waiting| - 1, |completions| + 1)
      modifies controller, `currentLevel, totals`conditionMet, totals`clipsApplied
      ensures InStep(now) && r.Success? && d.time == now && d.qInst == stable && Publishable(d.selectedCap)
      ensures Allowed(Parameters(), old(Standing(now)),
          Sent(stable, d, controller.Depth(), controller.Levels(), now + ServiceTime(EffectiveMax(r.value))))
    {
      var cap;
      cap, d := Consult(stable, now);
      if cap.Failure? {
        r := Result.Failure(ControllerRefused);
        return;
      }
      r := Clip(waiting[0], cap.value, now);
    }

    /** Moves the head of the queue into service until `completion`, under the decision just made. */
    method Serve(completion: real, now: real, ghost q: nat, ghost d: Decision, ghost v: View)
      requires |requests| > 0 && Leads(Parameters(), script, views, v) && |waiting| > 0
      requires Standing(now) == v.(signal := controller.Depth(), levels := controller.Levels())
      requires Allowed(Parameters(), v, Sent(q, d, controller.Depth(), controller.Levels(), completion))
      modifies `waiting, `completions, `lastDispatch, `journal, `script, `views
      ensures Leads(Parameters(), script, views, Standing(now))
      ensures waiting == old(waiting)[1..] && |completions| == old(|completions|) + 1 && lastDispatch == now
      ensures journal == Entered(old(journal), now, completion, d)
    {
      journal := Entered(journal, now, completion, d);
      waiting := waiting[1..];
      completions := Sorting.Insert(completion, completions);
      lastDispatch := now;
      Follow(v, Sent(q, d, controller.Depth(), controller.Levels(), completion), now);
    }

    /** Sends the head of the line under a decision about depth `stable`. */
    method SendHead(stable: nat, now: real) returns (error: Option<ProbeError>, ghost d: Decision)
      requires Running(now) && |waiting| > 0 && |completions| < MAX_IN_FLIGHT && Ripe(now)
      requires stable == LeftAfterFill(|waiting| - 1, |completions| + 1)
      modifies `waiting, `completions, `lastDispatch, `journal, `script, `views
      modifies controller, `currentLevel, totals`conditionMet, totals`clipsApplied
      ensures error == None && Running(now)
      ensures waiting == old(waiting)[1..] && |completions| == old(|completions|) + 1 && lastDispatch == now
      ensures Publishable(d.selectedCap) && d.qInst == stable && d.time == now
      ensures journal == Entered(old(journal), now, EndOf(predictor, old(waiting)[0], d.selectedCap, now), d)
    {
      HeadIsFresh(now);
      ghost var v := Standing(now);
      error := None;
      var effective;
      effective, d := Decide(stable, now);
      if effective.Failure? {
        error := Some(CapRefused);
        return;
      }
      Serve(now + ServiceTime(EffectiveMax(effective.value)), now, stable, d, v);
    }

    /**
     Serves the head of the queue, under a decision about the depth that will be left once every free slot is filled,
     until the end of its capped service time.
    */
    method DispatchNext(now: real) returns (error: Option<ProbeError>, ghost d: Decision)
      requires Running(now) && |waiting| > 0 && |completions| < MAX_IN_FLIGHT && Ripe(now)
      modifies this, controller, totals`conditionMet, totals`clipsApplied, totals`peakDepth
      ensures error == None && Running(now)
      ensures waiting == old(waiting)[1..] && |completions| == old(|completions|) + 1
      ensures nextArrival == old(nextArrival) && lastDispatch == now && previousTime == old(previousTime)
      ensures Publishable(d.selectedCap) && d.qInst == LeftAfterFill(|waiting|, |completions|) && d.time == now
      ensures journal == Entered(old(journal), now, EndOf(predictor, old(waiting)[0], d.selectedCap, now), d)
    {
      var remaining := MAX_IN_FLIGHT - |completions| - 1;
      var stable := if |waiting| - 1 > remaining then |waiting| - 1 - remaining else 0;
      error, d := SendHead(stable, now);
    }

    method NoteDepth(now: real)
      requires Running(now)
      modifies `currentDepth, totals`peakDepth
      ensures Running(now) && currentDepth == |waiting| && |completions| <= MAX_IN_FLIGHT
    {
      LineFacts(now);
      currentDepth := |waiting|;
      totals.SeeDepth(currentDepth);
    }

    /**
     Fills every free slot. All decisions of one pass are given the same depth, which is exactly the number left
     waiting when the pass ends.
    */
    method FillSlots(now: real) returns (error: Option<ProbeError>)
      requires Running(now) && Ripe(now)
      modifies this, controller, totals`conditionMet, totals`clipsApplied, totals`peakDepth
      ensures error == None && Running(now)
      ensures nextArrival == old(nextArrival) && previousTime == old(previousTime)
      ensures |waiting| + |completions| == old(|waiting| + |completions|) && |completions| >= old(|completions|)
      ensures |waiting| > 0 ==> |completions| == MAX_IN_FLIGHT
      ensures currentDepth == |waiting|
      ensures old(|journal.times|) <= |journal.times|
      ensures lastDispatch == if |journal.times| > old(|journal.times|) then now else old(lastDispatch)
      ensures |journal.decisions| - |journal.times| == old(|journal.decisions| - |journal.times|)
      ensures AllTold(journal.decisions, old(|journal.decisions|), now, |waiting|)
    {
      ghost var first := |journal.decisions|;
      while |waiting| > 0 && |completions| < MAX_IN_FLIGHT
        invariant Running(now) && Ripe(now) && nextArrival == old(nextArrival) && previousTime == old(previousTime)
        invariant |waiting| + |completions| == old(|waiting| + |completions|) && |completions| >= old(|completions|)
        invariant old(|journal.times|) <= |journal.times|
        invariant lastDispatch == if |journal.times| > old(|journal.times|) then now else old(lastDispatch)
        invariant |journal.decisions| - |journal.times| == old(|journal.decisions| - |journal.times|)
        invariant AllTold(journal.decisions, first, now, LeftAfterFill(|waiting|, |completions|))
        decreases |waiting|
      {
        ghost var before := journal.decisions;
        ghost var d;
        error, d := DispatchNext(now);
        if error.Some? {
          return;
        }
        ToldOneMore(before, first, now, d);
      }
      NoteDepth(now);
      error := None;
    }

    ghost predicate OrderSoFar()
      reads `nextArrival
    {
      nextArrival <= |requests| && InArrivalOrder(requests, nextArrival)
    }

    method TakeArrival(now: real)
      requires Running(now) && Filled(now) && nextArrival < |requests| && requests[nextArrival].arrival == now
      modifies `waiting, `nextArrival, `script, `views
      ensures Running(now) && Filled(now) && nextArrival == old(nextArrival) + 1 && |waiting| == old(|waiting|) + 1
    {
      ghost var v := Standing(now);
      waiting := waiting + [requests[nextArrival]];
      nextArrival := nextArrival + 1;
      Follow(v, Arrived, now);
    }

    lemma ArrivesInOrder(now: real)
      requires Running(now) && OrderSoFar() && nextArrival < |requests| && requests[nextArrival].arrival == now
      ensures InArrivalOrder(requests, nextArrival + 1)
    {
      LineFacts(now);
      OrderGrows(requests, nextArrival);
    }

    /** Admits every request that arrives now. */
    method TakeArrivals(now: real)
      requires Running(now) && OrderSoFar() && Filled(now)
      modifies `waiting, `nextArrival, `script, `views
      ensures Running(now) && OrderSoFar()
      ensures nextArrival >= old(nextArrival)
      ensures |waiting| == old(|waiting|) + nextArrival - old(nextArrival)
      ensures nextArrival < |requests| ==> requests[nextArrival].arrival != now
      ensures nextArrival > old(nextArrival) ==> requests[nextArrival - 1].arrival == now
      ensures old(nextArrival) < |requests| && requests[old(nextArrival)].arrival == now ==>
          nextArrival > old(nextArrival)
    {
      while nextArrival < |requests| && requests[nextArrival].arrival == now
        invariant Running(now) && OrderSoFar() && Filled(now)
        invariant old(nextArrival) <= nextArrival
        invariant |waiting| == old(|waiting|) + nextArrival - old(nextArrival)
        invariant nextArrival > old(nextArrival) ==> requests[nextArrival - 1].arrival == now
        decreases |requests| - nextArrival
      {
        ArrivesInOrder(now);
        TakeArrival(now);
      }
    }

    /** Drops the completions that are due. */
    method PopCompletions(now: real)
      modifies `completions
      ensures completions == NotDue(old(completions), now)
    {
      while |completions| > 0 && completions[0] == now
        invariant NotDue(completions, now) == NotDue(old(completions), now)
        decreases |completions|
      {
        completions := completions[1..];
      }
    }

    /** Between two events: nothing waits beside a free slot, and the trace so far is whole. */
    ghost predicate AtRest()
      reads this, controller, totals
    {
      && Running(previousTime) && currentDepth == |waiting|
      && (|waiting| > 0 ==> |completions| == MAX_IN_FLIGHT)
      && OrderSoFar()
      && AheadOf(previousTime) && Ripe(previousTime)
      && (Done() ==> lastDispatch == previousTime)
    }

    predicate Done()
      reads `nextArrival, `waiting
    {
      nextArrival >= |requests| && |waiting| == 0
    }

    function Work(): int
      reads `nextArrival, `waiting, `completions
    {
      3 * (|requests| - nextArrival) + 2 * |waiting| + |completions|
    }

    /** The time of the next arrival or completion. */
    method NextEvent() returns (now: real)
      requires AtRest() && !Done()
      ensures nextArrival < |requests| ==> now <= requests[nextArrival].arrival
      ensures |completions| > 0 ==> now <= completions[0]
      ensures (nextArrival < |requests| && now == requests[nextArrival].arrival)
          || (|completions| > 0 && now == completions[0])
    {
      if nextArrival < |requests| {
        now := requests[nextArrival].arrival;
        if |completions| > 0 && completions[0] < now {
          now := completions[0];
        }
      } else {
        now := completions[0];
      }
    }

    /** Books the time up to the next event. */
    method Book(now: real) returns (ok: bool)
      requires InStep(previousTime) && currentDepth == |waiting|
      modifies totals, `previousTime
      ensures ok == (old(previousTime) <= now) && (old(totals.Charted()) ==> totals.Charted())
      ensures ok ==> InStep(now) && previousTime == now && totals.spans == SpansTo(old(Standing(previousTime)), now)
    {
      ok := totals.AddInterval(previousTime, now, currentDepth, currentLevel, |journal.times|);
      if ok {
        previousTime := now;
      }
    }

    lemma WaitingCameEarlier(now: real)
      requires Running(now)
      ensures forall i :: 0 <= i < |waiting| ==> waiting[i].arrival <= now
    {
      ScriptsAreSane(Parameters(), script, views, Standing(now), |script|);
    }

    /** Lets time pass to the next event and frees the slots that complete there. */
    method Pass(now: real) returns (ok: bool)
      requires Running(previousTime) && currentDepth == |waiting| && (|waiting| > 0 ==> |completions| == MAX_IN_FLIGHT)
      requires |completions| > 0 ==> now <= completions[0]
      requires nextArrival < |requests| ==> now <= requests[nextArrival].arrival
      requires Ripe(previousTime)
      modifies totals, `previousTime, `completions, `script, `views
      ensures ok == (old(previousTime) <= now) && (old(totals.Charted()) ==> totals.Charted())
      ensures ok ==> Running(now) && Ripe(now) && previousTime == now && completions == NotDue(old(completions), now)
    {
      ghost var v := Standing(previousTime);
      WaitingCameEarlier(previousTime);
      ok := Book(now);
      if ok {
        PopCompletions(now);
        Follow(v, Passed(now), now);
      }
    }

    /** Notes the event that has just taken the simulation from v to where it stands. */
    ghost method Follow(v: View, e: Event, now: real)
      requires |requests| > 0 && Leads(Parameters(), script, views, v) && Allowed(Parameters(), v, e)
      requires Standing(now) == Next(Parameters(), v, e)
      modifies `script, `views
      ensures Leads(Parameters(), script, views, Standing(now))
    {
      LeadsOn(Parameters(), script, views, v, e);
      script := script + [e];
      views := views + [Standing(now)];
    }

    /** Fills the freed slots, then admits the new arrivals. */
    method FillAndAdmit(now: real) returns (error: Option<ProbeError>)
      requires Running(now) && OrderSoFar() && Ripe(now)
      modifies this, controller, totals`conditionMet, totals`clipsApplied, totals`peakDepth
      ensures error == None && Running(now) && OrderSoFar()
      ensures previousTime == old(previousTime)
      ensures nextArrival >= old(nextArrival) && |journal.times| >= old(|journal.times|)
      ensures Work() <= old(Work()) - (nextArrival - old(nextArrival))
      ensures nextArrival < |requests| ==> requests[nextArrival].arrival != now
      ensures nextArrival > old(nextArrival) ==> requests[nextArrival - 1].arrival == now
      ensures old(nextArrival) < |requests| && requests[old(nextArrival)].arrival == now ==>
          nextArrival > old(nextArrival)
      ensures |journal.times| > old(|journal.times|) ==> lastDispatch == now
    {
      error := FillSlots(now);
      if error.Some? {
        return;
      }
      TakeArrivals(now);
    }

    /** Fills the freed slots, admits the new arrivals and fills again. */
    method Settle(now: real) returns (error: Option<ProbeError>)
      requires Running(now) && OrderSoFar() && Ripe(now)
      modifies this, controller, totals`conditionMet, totals`clipsApplied, totals`peakDepth
      ensures error == None && Running(now) && OrderSoFar()
      ensures previousTime == old(previousTime)
      ensures currentDepth == |waiting| && (|waiting| > 0 ==> |completions| == MAX_IN_FLIGHT)
      ensures nextArrival >= old(nextArrival) && |journal.times| >= old(|journal.times|)
      ensures Work() <= old(Work()) - (nextArrival - old(nextArrival))
      ensures nextArrival < |requests| ==> requests[nextArrival].arrival != now
      ensures nextArrival > old(nextArrival) ==> requests[nextArrival - 1].arrival == now
      ensures old(nextArrival) < |requests| && requests[old(nextArrival)].arrival == now ==>
          nextArrival > old(nextArrival)
      ensures |journal.times| > old(|journal.times|) ==> lastDispatch == now
    {
      error := FillAndAdmit(now);
      if error.Some? {
        return;
      }
      error := FillSlots(now);
    }

    /** No arrival still to come lies before `now`, when the list is in order. */
    ghost predicate AheadOf(now: real)
      reads `nextArrival
    {
      InArrivalOrder(requests, |requests|) && nextArrival < |requests| ==> requests[nextArrival].arrival >= now
    }

    /** The next arrival still lies ahead once those at `now` have been taken. */
    lemma StillAhead(first: nat, now: real)
      requires |requests| > 0 && OrderSoFar() && first <= nextArrival
      requires InArrivalOrder(requests, |requests|) && first < |requests| ==> requests[first].arrival >= now
      requires nextArrival > first ==> requests[nextArrival - 1].arrival == now
      ensures AheadOf(now)
    {
      if InArrivalOrder(requests, |requests|) && first < nextArrival < |requests| {
        assert NoEarlier(requests, nextArrival);
      }
    }

    /** Handles everything that happens at `now` and comes to rest. */
    method Turn(now: real) returns (error: Option<ProbeError>)
      requires Running(now) && OrderSoFar() && Ripe(now) && AheadOf(now)
      requires previousTime == now && |journal.times| < |requests|
      modifies this, controller, totals`conditionMet, totals`clipsApplied, totals`peakDepth
      ensures error == None && AtRest() && Work() <= old(Work())
      ensures old(nextArrival) < |requests| && requests[old(nextArrival)].arrival == now ==> Work() < old(Work())
    {
      error := Settle(now);
      StillAhead(old(nextArrival), now);
      LineFacts(now);
    }

    /** One turn of the event loop. It fails only on arrivals that go back in time. */
    method Advance() returns (error: Option<ProbeError>)
      requires AtRest() && !Done() && totals.Charted()
      modifies this, controller, totals
      ensures error == None ==> AtRest() && totals.Charted() && Work() < old(Work())
      ensures error.Some? ==> error == Some(NegativeInterval) && !InArrivalOrder(requests, |requests|)
    {
      LineFacts(previousTime);
      var now := NextEvent();
      var ok := Pass(now);
      if !ok {
        return Some(NegativeInterval);
      }
      error := Turn(now);
    }

    /** The whole simulation: it ends, and neither of the source's runtime errors can be raised. */
    method Run() returns (error: Option<ProbeError>)
      requires AtRest() && totals.Charted()
      modifies this, controller, totals
      ensures error == None <==> InArrivalOrder(requests, |requests|)
      ensures error.Some? ==> error == Some(NegativeInterval)
      ensures error == None ==>
          AtRest() && totals.Finished() && |journal.times| == |requests| && lastDispatch == previousTime
      ensures error == None ==> EpisodesListed(totals)
    {
      while nextArrival < |requests| || |waiting| > 0
        invariant AtRest() && totals.Charted()
        decreases Work()
      {
        error := Advance();
        if error.Some? {
          return;
        }
      }
      LineFacts(previousTime);
      if previousTime > lastDispatch {
        return Some(PastFinalDispatch);
      }
      totals.FinishEpisodes();
      if totals.conditionMet != totals.clipsApplied {
        return Some(ClipCountDisagrees);
      }
      error := None;
    }
  }

  // ---------------------------------------------------------------- the finished trace

  /** Each request's time in the simulated queue. */
  function Rows(requests: seq<Envelope>, times: seq<real>): seq<R.Interval>
    requires |times| == |requests|
  {
    seq(|requests|, i requires 0 <= i < |requests| => R.Interval(requests[i].arrival, Some(times[i])))
  }

  lemma {:induction false} CountOfStretch(rows: seq<R.Interval>, low: nat, high: nat, t: real)
    requires low <= high && R.AllValid(rows)
    requires forall i :: 0 <= i < |rows| && i < low ==> rows[i].dispatch.value <= t
    requires forall i :: low <= i < |rows| && i < high ==> rows[i].enqueue <= t < rows[i].dispatch.value
    requires forall i :: high <= i < |rows| ==> rows[i].enqueue > t
    ensures R.Count(rows, t) == if |rows| <= low then 0 else if |rows| <= high then |rows| - low else high - low
  {
    if |rows| > 0 {
      CountOfStretch(rows[..|rows| - 1], low, high, t);
    }
  }

  /** At every moment of a span, as many requests have arrived and not left as the span's depth says. */
  lemma {:induction false} SpanDepthIsWaitingSet(requests: seq<Envelope>, times: seq<real>, spans: seq<Span>, now: real,
      k: nat, t: real)
    requires |times| == |requests| && R.AllValid(Rows(requests, times))
    requires AllTruthful(requests, times, |requests|, spans, now)
    requires k < |spans| && spans[k].start <= t < spans[k].end
    ensures R.Count(Rows(requests, times), t) == spans[k].depth
  {
    if k < |spans| - 1 {
      SpanDepthIsWaitingSet(requests, times, spans[..|spans| - 1], now, k, t);
    } else {
      var s := spans[k];
      CountOfStretch(Rows(requests, times), s.served, s.served + s.depth, t);
    }
  }

  /** What a finished trace says: every request left once, and the spans are the history of the waiting set. */
  ghost predicate Faithful(requests: seq<Envelope>, times: seq<real>, spans: seq<Span>) {
    && |times| == |requests| > 0
    && R.AllValid(Rows(requests, times))
    && (forall i :: 0 <= i < |times| ==> requests[0].arrival <= requests[i].arrival && times[i] <= times[|times| - 1])
    && Contiguous(spans, requests[0].arrival, times[|times| - 1])
    && (forall k: nat, t: real :: k < |spans| && spans[k].start <= t < spans[k].end ==>
          R.Count(Rows(requests, times), t) == spans[k].depth)
  }

  /**
   What a finished journal says: every request was sent once, in list order, under one decision of one controller,
   and stayed in service for its own capped length; the decision was told how much of the line its moment left waiting;
   at no moment were more than MAX_IN_FLIGHT in service, and all slots were in use whenever a request waited; each
   span's level is the last one decided before it.
  */
  ghost predicate ServesAll(cfg: Config, decay: real -> real, requests: seq<Envelope>, p: Predictor, j: Journal,
      spans: seq<Span>)
  {
    && |j.times| == |requests| && Priced(requests, p, j) && Sorting.Ascending(j.times)
    && (exists signal: Signal, levels: LevelState :: Authored(cfg, decay, j.decisions, signal, levels))
    && (forall i :: 0 <= i < |j.times| ==> j.decisions[i].qInst == LeftWaiting(requests, j.times, i))
    && (forall t: real :: Busy(j.times, j.ends, t) <= MAX_IN_FLIGHT)
    && (forall k: nat :: k < |spans| ==> SpanRecorded(j, spans[k]))
  }

  /** Simulates one list of requests. Only arrivals that go back in time make it fail. */
  method SimulateTrace(cfg: Config, decay: real -> real, requests: seq<Envelope>, predictor: Predictor)
    returns (r: Result<Totals, ProbeError>, ghost journal: Journal)
    requires ValidConfig(cfg) && Fresh(requests) && |requests| > 0
    ensures r.Success? <==> InArrivalOrder(requests, |requests|)
    ensures r.Failure? ==> r.error == NegativeInterval
    ensures r.Success? ==> fresh(r.value) && r.value.Valid() && r.value.Finished() && EpisodesListed(r.value)
    ensures r.Success? ==> Faithful(requests, journal.times, r.value.spans)
    ensures r.Success? ==> ServesAll(cfg, decay, requests, predictor, journal, r.value.spans)
  {
    journal := BLANK;
    var simulation := new Simulation(cfg, decay, requests, predictor);
    var error := simulation.Run();
    if error.Some? {
      return Result.Failure(error.value), journal;
    }
    journal := simulation.journal;
    FinishedIsFaithful(simulation);
    FinishedServesAll(simulation);
    r := Result.Success(simulation.totals);
  }

  ghost predicate Finished(simulation: Simulation)
    reads simulation, simulation.controller, simulation.totals
  {
    && simulation.AtRest() && |simulation.journal.times| == |simulation.requests|
    && simulation.lastDispatch == simulation.previousTime
    && InArrivalOrder(simulation.requests, |simulation.requests|)
  }

  lemma FinishedIsFaithful(simulation: Simulation)
    requires Finished(simulation)
    ensures Faithful(simulation.requests, simulation.journal.times, simulation.totals.spans)
  {
    var requests, times, spans := simulation.requests, simulation.journal.times, simulation.totals.spans;
    ScriptsAreSane(simulation.Parameters(), simulation.script, simulation.views,
        simulation.Standing(simulation.previousTime), |simulation.script|);
    forall i | 0 <= i < |times| ensures requests[0].arrival <= requests[i].arrival {
      FirstComesFirst(requests, |requests|, i);
    }
    forall k: nat, t: real | k < |spans| && spans[k].start <= t < spans[k].end
      ensures R.Count(Rows(requests, times), t) == spans[k].depth
    {
      SpanDepthIsWaitingSet(requests, times, spans, simulation.previousTime, k, t);
    }
  }

  lemma FinishedServesAll(simulation: Simulation)
    requires Finished(simulation)
    ensures ServesAll(simulation.controller.cfg, simulation.controller.decay, simulation.requests, simulation.predictor,
                      simulation.journal, simulation.totals.spans)
  {
    var sim, j, spans := simulation, simulation.journal, simulation.totals.spans;
    var v := sim.Standing(sim.previousTime);
    ScriptsAreSane(sim.Parameters(), sim.script, sim.views, v, |sim.script|);
    forall i | 0 <= i < |j.times| ensures j.times[i] >= sim.requests[0].arrival {
      FirstComesFirst(sim.requests, |sim.requests|, i);
    }
    DepthsAreLeftWaiting(sim.Parameters(), sim.script, sim.views, v);
    forall t: real ensures Busy(j.times, j.ends, t) <= MAX_IN_FLIGHT {
      NeverMoreThanMax(sim.Parameters(), v, t);
    }
    forall k: nat | k < |spans| ensures SpanRecorded(j, spans[k]) {
      RecordedAt(j, spans, sim.previousTime, k);
    }
  }

  /** The probe's decisions are those of an earned controller history, made when the requests were sent. */
  lemma ProbeDecisionsAreEarned(
    cfg: Config, decay: real -> real, requests: seq<Envelope>, p: Predictor, j: Journal, spans: seq<Span>)
        returns (h: History)
    requires ServesAll(cfg, decay, requests, p, j, spans)
    ensures Written(cfg, decay, j.decisions, h) && H.EarnedHistory(cfg, h.ticks, H.Levels(h.states))
    ensures forall i :: 0 <= i < |j.times| ==>
        j.times[i] == h.ticks[i].now && j.decisions[i].newLevel == h.states[i + 1].level
  {
    var signal: Signal, levels: LevelState :| Authored(cfg, decay, j.decisions, signal, levels);
    h :| Written(cfg, decay, j.decisions, h) && EndsIn(h, signal, levels);
    LogsAreEarned(cfg, decay, j.decisions, h);
    forall i | 0 <= i < |j.times|
      ensures j.times[i] == h.ticks[i].now && j.decisions[i].newLevel == h.states[i + 1].level
    {
      assert PricedAt(requests[i], p, j.times[i], j.ends[i], j.decisions[i]);
    }
  }

  /**
   The totals of a finished simulation: time is conserved over depths and over levels, from the first arrival to the
   last dispatch, and each threshold's episodes add up to the time at or above it.
  */
  lemma TraceConserves(requests: seq<Envelope>, times: seq<real>, totals: Totals, time: int -> real)
    requires totals.Valid() && totals.Finished() && Faithful(requests, times, totals.spans)
    requires forall d :: time(d) == R.Get(totals.depthTime, d, 0.0)
    ensures totals.totalTime == times[|times| - 1] - requests[0].arrival
    ensures D.Weigh(D.EVENLY, time, 0, totals.peakDepth) == totals.totalTime
    ensures totals.levelTime[0] + totals.levelTime[1] + totals.levelTime[2] + totals.levelTime[3] == totals.totalTime
    ensures forall i :: 0 <= i < |DEPTH_THRESHOLDS| ==>
              A.Sum(totals.episodes[i]) == D.Weigh(D.EVENLY, time, DEPTH_THRESHOLDS[i], totals.peakDepth)
  {
    ContiguousTime(totals.spans, requests[0].arrival, times[|times| - 1]);
    DepthsCoverTrace(totals.spans, 0, totals.peakDepth, time);
    WholeIsFromZero(totals.spans);
    forall i | 0 <= i < |DEPTH_THRESHOLDS|
      ensures A.Sum(totals.episodes[i]) == D.Weigh(D.EVENLY, time, DEPTH_THRESHOLDS[i], totals.peakDepth)
    {
      DepthsCoverTrace(totals.spans, DEPTH_THRESHOLDS[i], totals.peakDepth, time);
    }
    LevelsCoverTrace(totals.spans);
  }
}
