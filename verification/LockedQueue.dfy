/** The mutable queue: each method is one critical section, proved to be one step of the protocol. */
module LockedQueue {
  import opened Wrappers
  import opened Models
  import opened Clipping
  import opened Policies
  import opened Admission
  import opened AdmissionSafety
  import opened RequestFates
  import AC = AdaptiveClipping

  datatype SubmitOutcome = NotAccepting | Refused(result: AdmissionResult) | Accepted(id: Id)

  datatype QueueError = QueueClosed

  class AdmissionQueue {
    const su: Setup
    const controller: AC.Controller?
    var waiting: seq<Id>
    var entries: map<Id, Entry>
    var results: map<Id, AdmissionResult>
    var nextId: Id
    var tick: nat
    var started: bool
    var closing: bool
    var closed: bool
    var decisions: seq<AdmissionDecision>

    function State(): Queue
      reads this, controller
    {
      Queue(waiting, entries, results, nextId, tick, started, closing, closed,
            if controller == null then AC.QUIET else controller.Depth(),
            if controller == null then AC.INITIAL else controller.Levels(),
            decisions)
    }

    /** The controller is the one the configuration asks for. */
    ghost predicate Wired()
      reads this, controller
    {
      && ValidSetup(su)
      && (controller == null <==> su.adaptive.None?)
      && (controller != null ==>
            controller.Valid() && controller.cfg == su.adaptive.value.cfg
                && controller.decay == su.adaptive.value.decay)
    }

    ghost predicate Valid()
      reads this, controller
    {
      Wired() && Inv(su, State())
    }

    constructor (su: Setup)
      requires ValidSetup(su)
      ensures Valid() && fresh(this) && (controller != null ==> fresh(controller))
      ensures this.su == su && State() == EMPTY
    {
      this.su := su;
      if su.adaptive.Some? {
        var c := new AC.Controller(su.adaptive.value.cfg, su.adaptive.value.decay);
        controller := c;
      } else {
        controller := null;
      }
      waiting, entries, results, nextId, tick, decisions := [], map[], map[], 0, 0, [];
      started, closing, closed := false, false, false;
      new;
      assert Flying(EMPTY.entries) == {};
    }

    method ReadClock() returns (now: real)
      modifies `tick
      ensures now == su.clock(old(tick)) && tick == old(tick) + 1
    {
      now := su.clock(tick);
      tick := tick + 1;
    }

    method Start() returns (r: Result<(), QueueError>)
      requires Valid()
      modifies this
      ensures Valid() && State() == Apply(su, old(State()), Step.Start)
      ensures r.Failure? <==> old(closed)
    {
      StepKeepsInv(su, State(), Step.Start);
      if closed {
        return Result.Failure(QueueClosed);
      }
      if !started {
        started := true;
      }
      r := Result.Success(());
    }

    method CompleteLocked(id: Id, status: Status)
      modifies this
      ensures State() == Complete(su, old(State()), id, status)
    {
      if id in entries {
        var e := entries[id];
        entries := entries - {id};
        var completion := ReadClock();
        results := results[id := AdmissionResult(status, e.enqueue, e.dispatch, completion, e.envelope)];
      }
    }

    /** Asks the controller for the cap of the entry being dispatched. */
    method ConsultController() returns (decision: AC.Decision)
      requires Wired() && controller != null && AC.WellFormed(State().levels)
      requires State().signal.last.Some? ==> State().signal.last.value <= su.clock(tick)
      modifies this, controller
      ensures Wired() && var d := Consult(su, old(State()));
              decision == d.2 && State() == old(State()).(signal := d.0, levels := d.1, tick := old(tick) + 1)
    {
      var free := su.maxInFlight - |Flying(entries)| - 1;
      var depth := if |waiting| - free > 0 then |waiting| - free else 0;
      var now := ReadClock();
      var r := controller.Update(depth, now);
      decision := r.value;
    }

    method LaunchLocked(id: Id, envelope: Envelope)
      requires id in entries
      modifies this
      ensures State() == Launch(su, old(State()), id, envelope)
    {
      var dispatched := ReadClock();
      entries := entries[id := entries[id].(envelope := envelope, phase := InFlight, dispatch := Some(dispatched))];
    }

    /** Sends a popped entry to the backend under the cap its dispatch earns. */
    method DispatchLocked(id: Id)
      requires Wired() && id in entries && AC.WellFormed(State().levels)
      requires State().signal.last.Some? ==> State().signal.last.value <= su.clock(tick)
      modifies this, controller
      ensures Wired() && State() == Dispatch(su, old(State()), id)
    {
      var envelope := entries[id].envelope;
      if controller != null {
        var decision := ConsultController();
        var capped := ApplyAdaptiveCap(true, su.adaptive.value.estimate, envelope, decision.selectedCap);
        decisions := decisions + [AdmissionDecision(envelope.requestId, decision)];
        envelope := capped.value;
      }
      LaunchLocked(id, envelope);
    }

    /** Takes the policy's first choice out of the waiting line and reads the clock for its timeout. */
    method PopSelected() returns (id: Id, reading: real)
      requires Wired() && Sound(State()) && |waiting| > 0
      modifies `waiting, `tick
      ensures State() == Popped(su, old(State()))
      ensures id == old(waiting)[Selected(su, old(State()))] && reading == su.clock(tick - 1) && tick > 0
    {
      var now := ReadClock();
      var i := Head(su.policy, Envelopes(State()), now);
      id := waiting[i];
      waiting := RemoveAt(waiting, i);
      reading := ReadClock();
    }

    method AdmitOneLocked()
      requires Wired() && Consistent(su, State()) && CanAdmit(su, State())
      modifies this, controller
      ensures Wired() && State() == AdmitOne(su, old(State()))
    {
      ghost var q := State();
      var id, reading := PopSelected();
      PoppedKeeps(su, q);
      PoppedIsSound(su, q);
      if reading - entries[id].enqueue >= su.timeout {
        CompleteLocked(id, Timeout);
      } else {
        DispatchLocked(id);
      }
    }

    /** Admits waiting requests while a slot is free. */
    method AdmitAvailableLocked()
      requires Wired() && Consistent(su, State())
      modifies this, controller
      ensures Wired() && State() == Admit(su, old(State()))
    {
      while !closing && |waiting| > 0 && |Flying(entries)| < su.maxInFlight
        invariant Wired() && Consistent(su, State())
        invariant Admit(su, State()) == Admit(su, old(State()))
        decreases |waiting|
      {
        AdmitOneKeeps(su, State());
        AdmitOneIsSound(su, State());
        AdmitOneLocked();
      }
    }

    method Enqueue(e: Envelope, enqueue: real)
      modifies `waiting, `entries, `nextId
      ensures State() == AddWaiting(old(State()), e, enqueue)
    {
      waiting := waiting + [nextId];
      entries := entries[nextId := Entry(e, enqueue, Waiting, None, None)];
      nextId := nextId + 1;
    }

    /** Enqueues one request, or refuses it at once when the waiting queue is full. */
    method Submit(e: Envelope, enqueue: real) returns (r: SubmitOutcome)
      requires Valid() && Enabled(su, State(), Step.Submit(e, enqueue))
      modifies this, controller
      ensures Valid() && State() == Apply(su, old(State()), Step.Submit(e, enqueue))
      ensures r.NotAccepting? <==> !Accepting(old(State()))
      ensures r.Refused? <==> Accepting(old(State())) && |old(entries)| == su.maxInFlight + su.capacity
      ensures r.Refused? ==> r.result == AdmissionResult(Rejected, enqueue, None, su.clock(old(tick)), e)
      ensures r.Accepted? ==> r.id == old(nextId)
    {
      ghost var q := State();
      StepKeepsInv(su, q, Step.Submit(e, enqueue));
      RejectsOnlyWhenFull(su, q);
      if !started || closing || closed {
        return NotAccepting;
      }
      if |waiting| >= su.capacity {
        var now := ReadClock();
        return Refused(AdmissionResult(Rejected, enqueue, None, now, e));
      }
      r := Accepted(nextId);
      Enqueue(e, enqueue);
      AddedIsConsistent(su, q, e, enqueue);
      AdmitAvailableLocked();
    }

    /** A forced status wins; otherwise the total timeout is checked before the backend's outcome counts. */
    method DecideStatus(id: Id, outcome: Status) returns (status: Status)
      requires id in entries
      modifies `tick
      ensures status == FinalStatus(su, old(State()), id, outcome)
      ensures tick == if entries[id].forced.Some? then old(tick) else old(tick) + 1
    {
      var e := entries[id];
      status := outcome;
      if e.forced.Some? {
        status := e.forced.value;
      } else {
        var now := ReadClock();
        if now - e.enqueue >= su.timeout {
          status := Timeout;
        }
      }
    }

    method FinishLocked(id: Id, outcome: Status)
      requires id in entries
      modifies this
      ensures State() == Finish(su, old(State()), id, outcome)
    {
      var status := DecideStatus(id, outcome);
      CompleteLocked(id, status);
    }

    /** The backend call of an in-flight request has ended. */
    method FinishBackend(id: Id, outcome: Status)
      requires Valid() && Enabled(su, State(), BackendFinish(id, outcome))
      modifies this, controller
      ensures Valid() && State() == Apply(su, old(State()), BackendFinish(id, outcome))
      ensures id !in entries && id in results && results[id] == ReportOf(su, old(State()), old(entries)[id], outcome)
    {
      ghost var q := State();
      StepKeepsInv(su, q, BackendFinish(id, outcome));
      FinishReports(su, q, id, outcome);
      FinishedIsConsistent(su, q, id, outcome);
      FinishLocked(id, outcome);
      AdmitAvailableLocked();
    }

    /** Takes an entry out of the waiting line, or marks its running backend call. */
    method Stop(id: Id, status: Status)
      requires id in entries
      modifies this
      ensures State() == if old(entries)[id].phase.Waiting? then DropWaiting(su, old(State()), id, status)
                         else Force(old(State()), id, status)
    {
      if entries[id].phase.Waiting? {
        waiting := Without(waiting, id);
        CompleteLocked(id, status);
      } else {
        entries := entries[id := entries[id].(forced := Some(status))];
      }
    }

    method FireTimer(id: Id)
      requires Valid() && Enabled(su, State(), TimerFire(id))
      modifies this
      ensures Valid() && State() == Apply(su, old(State()), TimerFire(id))
    {
      StepKeepsInv(su, State(), TimerFire(id));
      if id in entries {
        Stop(id, Timeout);
      }
    }

    method CancelFromSubmitter(id: Id)
      requires Valid() && Enabled(su, State(), SubmitterCancel(id))
      modifies this
      ensures Valid() && State() == Apply(su, old(State()), SubmitterCancel(id))
    {
      StepKeepsInv(su, State(), SubmitterCancel(id));
      if id in entries {
        Stop(id, Cancelled);
      }
    }

    /** Cancels every waiting request, in order. */
    method CancelWaiting()
      modifies this
      ensures State() == DrainWaiting(su, old(State()))
    {
      while |waiting| > 0
        invariant DrainWaiting(su, State()) == DrainWaiting(su, old(State()))
        decreases |waiting|
      {
        ghost var q := State();
        var id := waiting[0];
        waiting := waiting[1..];
        CompleteLocked(id, Cancelled);
        assert State() == Complete(su, Behind(q), q.waiting[0], Cancelled);
      }
    }

    /** Marks every request in flight as cancelled. */
    method ForceInFlight()
      modifies `entries
      ensures State() == ForceFlying(old(State()))
    {
      entries := map id | id in entries ::
        if entries[id].phase.InFlight? then entries[id].(forced := Some(Cancelled)) else entries[id];
    }

    /** Stops accepting, cancels what waits, and marks what is in flight. */
    method BeginClosing()
      requires Valid()
      modifies this
      ensures Valid() && State() == Apply(su, old(State()), BeginClose)
    {
      StepKeepsInv(su, State(), BeginClose);
      if closed {
        return;
      }
      if !started {
        closed := true;
        return;
      }
      closing := true;
      CancelWaiting();
      ForceInFlight();
    }

    /** Closing ends: every runner has finished, or the wait for them was aborted. */
    method EndClosing(aborted: bool)
      requires Valid() && Enabled(su, State(), EndClose(aborted))
      modifies this
      ensures Valid() && State() == Apply(su, old(State()), EndClose(aborted))
    {
      StepKeepsInv(su, State(), EndClose(aborted));
      closed := true;
      closing := false;
    }
  }
}
