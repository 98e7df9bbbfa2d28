/**
 What one step of the queue sends to the backend: at most one request, whose decision reports exactly the number
 of requests it leaves waiting.
*/
module Dispatches {
  import opened Wrappers
  import opened Models
  import opened Admission
  import opened AdmissionSafety
  import AC = AdaptiveClipping

  /** Every request dispatched so far. */
  ghost function Sent(q: Queue): set<Id> {
    Flying(q.entries) + set id | id in q.results && q.results[id].dispatch.Some?
  }

  /** A request that leaves the table was sent before if it is sent after. */
  lemma CompleteSendsNothing(su: Setup, q: Queue, id: Id, status: Status)
    requires id in q.entries && id !in q.results
    requires q.entries[id].phase.InFlight? <==> q.entries[id].dispatch.Some?
    ensures Sent(Complete(su, q, id, status)) == Sent(q)
  {
    CompleteEffect(su, q, id, status);
    assert Complete(su, q, id, status).results[id].dispatch == q.entries[id].dispatch;
  }

  lemma DispatchSendsOne(su: Setup, q: Queue, id: Id)
    requires Usable(su) && id in q.entries && AC.WellFormed(q.levels)
    ensures Sent(Dispatch(su, q, id)) == Sent(q) + {id}
  {
    DispatchEffect(su, q, id);
    FlyingAfterUpdate(q.entries, id, Dispatch(su, q, id).entries[id]);
  }

  /** From q to q' request id left the waiting line, perhaps for the backend, and no other moved. */
  ghost predicate Moved(q: Queue, q': Queue, id: Id) {
    && q.tick <= q'.tick && id in q.waiting && id !in Sent(q)
    && (forall x :: x in q'.waiting <==> x in q.waiting && x != id)
    && (forall x :: x != id ==> (x in q'.entries <==> x in q.entries))
    && (forall x :: x != id && x in q.entries ==> q'.entries[x] == q.entries[x])
    && (Sent(q') == Sent(q) || Sent(q') == Sent(q) + {id})
  }

  lemma DropMoves(su: Setup, q: Queue, popped: Queue, id: Id)
    requires popped.entries == q.entries && popped.results == q.results && q.tick <= popped.tick
    requires id in q.waiting && forall x :: x in popped.waiting <==> x in q.waiting && x != id
    requires id in q.entries && id !in q.results && q.entries[id].phase.Waiting? && q.entries[id].dispatch.None?
    ensures Moved(q, Complete(su, popped, id, Timeout), id)
  {
    CompleteSendsNothing(su, popped, id, Timeout);
    CompleteEffect(su, popped, id, Timeout);
  }

  lemma DispatchMoves(su: Setup, q: Queue, popped: Queue, id: Id)
    requires popped.entries == q.entries && popped.results == q.results && q.tick <= popped.tick
    requires id in q.waiting && forall x :: x in popped.waiting <==> x in q.waiting && x != id
    requires id in q.entries && id !in q.results && q.entries[id].phase.Waiting?
    requires Usable(su) && AC.WellFormed(popped.levels)
    ensures Moved(q, Dispatch(su, popped, id), id)
  {
    DispatchEffect(su, popped, id);
    DispatchSendsOne(su, popped, id);
  }

  lemma AdmitOneMoves(su: Setup, q: Queue)
    requires Steady(su.clock) && Usable(su) && Consistent(su, q) && CanAdmit(su, q)
    ensures Moved(q, AdmitOne(su, q), q.waiting[Selected(su, q)])
  {
    var i := Selected(su, q);
    var id, popped := q.waiting[i], Popped(su, q);
    RemovedIds(q.waiting, i);
    WaitingFacts(su, q, id);
    if Overdue(su, popped, id) {
      DropMoves(su, q, popped, id);
    } else {
      DispatchMoves(su, q, popped, id);
    }
  }

  lemma FinishedParts(su: Setup, q: Queue, id: Id, outcome: Status)
    requires id in q.entries && id !in q.results && q.entries[id].phase.InFlight? && q.entries[id].dispatch.Some?
    ensures var f := Finish(su, q, id, outcome);
            f.waiting == q.waiting && f.entries == q.entries - {id} && q.tick <= f.tick && Sent(f) == Sent(q)
  {
    CompleteSendsNothing(su, Decided(q, id), id, FinalStatus(su, q, id, outcome));
    CompleteEffect(su, Decided(q, id), id, FinalStatus(su, q, id, outcome));
    assert Sent(Decided(q, id)) == Sent(q);
  }

  lemma {:induction false} DrainSendsNothing(su: Setup, q: Queue)
    requires Steady(su.clock) && Consistent(su, q)
    ensures SendsNone(q, DrainWaiting(su, q))
    decreases |q.waiting|
  {
    if |q.waiting| > 0 {
      WaitingFacts(su, q, q.waiting[0]);
      DrainOneKeeps(su, q);
      assert Sent(Behind(q)) == Sent(q);
      CompleteSendsNothing(su, Behind(q), q.waiting[0], Cancelled);
      DrainSendsNothing(su, DrainOne(su, q));
    }
  }

  lemma ForceFlyingSendsNothing(q: Queue)
    ensures SendsNone(q, ForceFlying(q))
  {
    assert Flying(ForceFlying(q).entries) == Flying(q.entries);
  }

  lemma ForceSendsNone(q: Queue, id: Id, status: Status)
    requires id in q.entries && q.entries[id].phase.InFlight?
    ensures SendsNone(q, Force(q, id, status))
  {
    FlyingAfterUpdate(q.entries, id, q.entries[id].(forced := Some(status)));
    assert Flying(q.entries) + {id} == Flying(q.entries);
  }

  lemma DropSendsNone(su: Setup, q: Queue, id: Id, status: Status)
    requires Inv(su, q) && id in q.entries && q.entries[id].phase.Waiting?
    ensures SendsNone(q, DropWaiting(su, q, id, status))
  {
    WaitingFacts(su, q, id);
    assert Sent(LeaveLine(q, id)) == Sent(q);
    CompleteSendsNothing(su, LeaveLine(q, id), id, status);
  }

  // ---------------------------------------------------------------- the depth signal

  /** A pass fills every free slot it can: at most the overflow keeps waiting. */
  lemma {:induction false} PassDrains(su: Setup, q: Queue)
    requires Steady(su.clock) && Usable(su) && Consistent(su, q) && !q.closing
    ensures |Admit(su, q).waiting| <= if |q.waiting| > su.maxInFlight - |Flying(q.entries)|
        then |q.waiting| - (su.maxInFlight - |Flying(q.entries)|) else 0
    decreases |q.waiting|
  {
    if CanAdmit(su, q) {
      AdmitOneKeeps(su, q);
      AdmitOneIsSound(su, q);
      PassDrains(su, AdmitOne(su, q));
    }
  }

  /** From any consistent state, a dispatch projects at least the depth its pass leaves behind. */
  lemma ProjectionIsUpperBound(su: Setup, q: Queue)
    requires Steady(su.clock) && Usable(su) && Consistent(su, q) && CanAdmit(su, q)
    requires !Overdue(su, Popped(su, q), q.waiting[Selected(su, q)])
    ensures StableDepth(su, Popped(su, q)) >= |Admit(su, q).waiting|
  {
    var id, popped := q.waiting[Selected(su, q)], Popped(su, q);
    AdmitOneKeeps(su, q);
    AdmitOneIsSound(su, q);
    PoppedKeeps(su, q);
    assert id in q.waiting && id !in Flying(q.entries);
    DispatchKeeps(su, popped, id);
    PassDrains(su, AdmitOne(su, q));
  }

  // ---------------------------------------------------------------- at most one dispatch, exactly projected

  /** Nothing was sent and nothing logged. */
  ghost predicate SendsNone(q: Queue, q': Queue) {
    Sent(q') == Sent(q) && q'.decisions == q.decisions
  }

  /**
   Exactly the request id was sent. With a controller, exactly its decision was logged, with the number of requests
   left waiting as depth.
  */
  ghost predicate Sends(su: Setup, q: Queue, q': Queue, id: Id) {
    && id !in Sent(q) && Sent(q') == Sent(q) + {id} && id in Flying(q'.entries)
    && if su.adaptive.None? then q'.decisions == q.decisions else LogsOne(q, q', q'.entries[id].envelope.requestId)
  }

  ghost predicate LogsOne(q: Queue, q': Queue, requestId: string) {
    && |q'.decisions| == |q.decisions| + 1 && q'.decisions[..|q.decisions|] == q.decisions
    && q'.decisions[|q.decisions|].requestId == requestId
    && q'.decisions[|q.decisions|].decision.qInst == |q'.waiting|
  }

  ghost predicate SendsAtMostOne(su: Setup, q: Queue, q': Queue) {
    SendsNone(q, q') || exists id :: Sends(su, q, q', id)
  }

  lemma NoneThenOne(su: Setup, q: Queue, f: Queue, q': Queue)
    requires SendsNone(q, f) && SendsAtMostOne(su, f, q')
    ensures SendsAtMostOne(su, q, q')
  {
    if !SendsNone(f, q') {
      var id :| Sends(su, f, q', id);
      assert Sends(su, q, q', id);
    }
  }

  /** At most one slot can be filled: the situation every submission and completion creates. */
  ghost predicate OneSlot(su: Setup, q: Queue) {
    |Flying(q.entries)| >= su.maxInFlight - 1 || |q.waiting| <= 1
  }

  /** The queue of a pass once the overdue requests the policy picks first have been dropped. */
  ghost function Trimmed(su: Setup, q: Queue): Queue
    requires Usable(su) && Sound(q)
    decreases |q.waiting|
  {
    if CanAdmit(su, q) && Overdue(su, Popped(su, q), q.waiting[Selected(su, q)]) then
      AdmitOneIsSound(su, q);
      Trimmed(su, AdmitOne(su, q))
    else q
  }

  lemma DispatchSends(su: Setup, q: Queue, id: Id)
    requires Usable(su) && AC.WellFormed(q.levels) && id in q.entries && id !in Sent(q)
    requires StableDepth(su, q) == |q.waiting|
    ensures Sends(su, q, Dispatch(su, q, id), id)
  {
    DispatchEffect(su, q, id);
    DispatchSendsOne(su, q, id);
    DispatchLogs(su, q, id);
  }

  lemma DispatchLogs(su: Setup, q: Queue, id: Id)
    requires Usable(su) && AC.WellFormed(q.levels) && id in q.entries
    ensures var d := Dispatch(su, q, id);
            if su.adaptive.None? then d.decisions == q.decisions
            else
              && |d.decisions| == |q.decisions| + 1 && d.decisions[..|q.decisions|] == q.decisions
              && d.decisions[|q.decisions|].requestId == d.entries[id].envelope.requestId
              && d.decisions[|q.decisions|].decision.qInst == StableDepth(su, q)
  {
    if su.adaptive.Some? {
      var c := Consult(su, q);
    }
  }

  /** With one free slot at most, the depth projected right after the pop is exactly the number then waiting. */
  lemma ProjectionAfterPop(su: Setup, q: Queue)
    requires Usable(su) && Sound(q) && OneSlot(su, q) && CanAdmit(su, q)
    ensures StableDepth(su, Popped(su, q)) == |Popped(su, q).waiting|
  {
  }

  /** A dispatch into the only slot ends the pass, so the projection is still exact then. */
  lemma LastSlot(su: Setup, q: Queue)
    requires Steady(su.clock) && Usable(su) && Consistent(su, q) && OneSlot(su, q) && CanAdmit(su, q)
    requires !Overdue(su, Popped(su, q), q.waiting[Selected(su, q)])
    ensures var q', id := AdmitOne(su, q), q.waiting[Selected(su, q)];
            && Sound(q') && Admit(su, q') == q' && Sends(su, q, q', id)
            && StableDepth(su, Popped(su, q)) == |Popped(su, q).waiting| == |q'.waiting|
  {
    var id, popped := q.waiting[Selected(su, q)], Popped(su, q);
    AdmitOneIsSound(su, q);
    ProjectionAfterPop(su, q);
    WaitingFacts(su, q, id);
    assert Sent(popped) == Sent(q);
    DispatchSends(su, popped, id);
    DispatchEffect(su, popped, id);
    FlyingAfterUpdate(popped.entries, id, AdmitOne(su, q).entries[id]);
    assert !CanAdmit(su, AdmitOne(su, q));
  }

  lemma TimeoutSendsNone(su: Setup, q: Queue)
    requires Steady(su.clock) && Usable(su) && Consistent(su, q) && CanAdmit(su, q)
    requires Overdue(su, Popped(su, q), q.waiting[Selected(su, q)])
    ensures SendsNone(q, AdmitOne(su, q)) && Flying(AdmitOne(su, q).entries) == Flying(q.entries)
  {
    WaitingFacts(su, q, q.waiting[Selected(su, q)]);
    DroppedSendsNone(su, q, Popped(su, q), q.waiting[Selected(su, q)]);
  }

  lemma DroppedSendsNone(su: Setup, q: Queue, popped: Queue, id: Id)
    requires popped.entries == q.entries && popped.results == q.results && popped.decisions == q.decisions
    requires id in q.entries && id !in q.results && q.entries[id].phase.Waiting? && q.entries[id].dispatch.None?
    ensures SendsNone(q, Complete(su, popped, id, Timeout))
    ensures Flying(Complete(su, popped, id, Timeout).entries) == Flying(q.entries)
  {
    CompleteSendsNothing(su, popped, id, Timeout);
    CompleteEffect(su, popped, id, Timeout);
    assert Sent(popped) == Sent(q) && Flying(q.entries) - {id} == Flying(q.entries);
  }

  /** What a pass with at most one free slot does: it drops overdue requests, then dispatches at most once. */
  ghost predicate ExactPass(su: Setup, q: Queue, t: Queue, q': Queue)
    requires Usable(su)
  {
    && Sound(t) && SendsNone(q, t) && SendsAtMostOne(su, q, q')
    && if CanAdmit(su, t) then
         q' == AdmitOne(su, t) && StableDepth(su, Popped(su, t)) == |Popped(su, t).waiting| == |q'.waiting|
       else q' == t
  }

  /** With one free slot, a pass dispatches at most once and projects the length after the pop and at the end. */
  lemma {:induction false} PassIsExact(su: Setup, q: Queue)
    requires Steady(su.clock) && Usable(su) && Consistent(su, q) && OneSlot(su, q)
    ensures ExactPass(su, q, Trimmed(su, q), Admit(su, q))
    decreases |q.waiting|
  {
    if CanAdmit(su, q) {
      var q' := AdmitOne(su, q);
      AdmitOneKeeps(su, q);
      AdmitOneIsSound(su, q);
      if Overdue(su, Popped(su, q), q.waiting[Selected(su, q)]) {
        TimeoutSendsNone(su, q);
        PassIsExact(su, q');
        NoneThenOne(su, q, q', Admit(su, q'));
      } else {
        LastSlot(su, q);
      }
    }
  }

  lemma SubmitIsExact(su: Setup, q: Queue, e: Envelope, enqueue: real)
    requires ValidSetup(su) && Inv(su, q) && Accepting(q) && !Full(su, q)
    requires q.tick > 0 && enqueue <= su.clock(q.tick - 1)
    ensures SendsAtMostOne(su, q, Admit(su, AddWaiting(q, e, enqueue)))
  {
    var a := AddWaiting(q, e, enqueue);
    AddedIsConsistent(su, q, e, enqueue);
    assert SendsNone(q, a);
    PassIsExact(su, a);
    NoneThenOne(su, q, a, Admit(su, a));
  }

  lemma FinishIsExact(su: Setup, q: Queue, id: Id, outcome: Status)
    requires ValidSetup(su) && Inv(su, q) && Enabled(su, q, BackendFinish(id, outcome))
    ensures SendsAtMostOne(su, q, Admit(su, Finish(su, q, id, outcome)))
  {
    var f := Finish(su, q, id, outcome);
    FlyingFacts(su, q, id);
    FinishedIsConsistent(su, q, id, outcome);
    FinishedParts(su, q, id, outcome);
    PassIsExact(su, f);
    NoneThenOne(su, q, f, Admit(su, f));
  }

  /**
   In a reachable state no step sends more than one request, with or without a controller, and the decision logged
   for it reports the depth it leaves.
  */
  lemma StepIsExact(su: Setup, q: Queue, step: Step)
    requires ValidSetup(su) && Inv(su, q) && Enabled(su, q, step)
    ensures SendsAtMostOne(su, q, Apply(su, q, step))
  {
    match step
    case Submit(e, enqueue) =>
      if Accepting(q) && !Full(su, q) {
        SubmitIsExact(su, q, e, enqueue);
      }
    case BackendFinish(id, outcome) =>
      FinishIsExact(su, q, id, outcome);
    case _ => QuietStepSendsNone(su, q, step);
  }

  /** Only a submission or a finishing backend can start a pass. */
  lemma QuietStepSendsNone(su: Setup, q: Queue, step: Step)
    requires ValidSetup(su) && Inv(su, q) && Enabled(su, q, step) && !step.Submit? && !step.BackendFinish?
    ensures SendsNone(q, Apply(su, q, step))
  {
    match step
    case TimerFire(id) => StopSendsNone(su, q, id, Timeout);
    case SubmitterCancel(id) => StopSendsNone(su, q, id, Cancelled);
    case BeginClose =>
      if !q.closed && q.started {
        ClosingIsConsistent(su, q);
        CloseSendsNone(su, Closing(q));
      }
    case _ =>
  }

  lemma ClosingIsConsistent(su: Setup, q: Queue)
    requires Consistent(su, q)
    ensures Consistent(su, Closing(q)) && SendsNone(q, Closing(q))
  {
  }

  lemma CloseSendsNone(su: Setup, q: Queue)
    requires Steady(su.clock) && Consistent(su, q)
    ensures SendsNone(q, ForceFlying(DrainWaiting(su, q)))
  {
    DrainSendsNothing(su, q);
    ForceFlyingSendsNothing(DrainWaiting(su, q));
  }

  lemma StopSendsNone(su: Setup, q: Queue, id: Id, status: Status)
    requires Inv(su, q)
    ensures id in q.entries ==>
              SendsNone(q,
                  if q.entries[id].phase.Waiting? then DropWaiting(su, q, id, status) else Force(q, id, status))
  {
    if id in q.entries {
      if q.entries[id].phase.Waiting? {
        DropSendsNone(su, q, id, status);
      } else {
        ForceSendsNone(q, id, status);
      }
    }
  }
}
