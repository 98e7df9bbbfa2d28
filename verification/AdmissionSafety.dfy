/**
 Safety of the admission queue over every interleaving of its steps: the invariant every enabled step
 keeps, what a rejection implies, final results, and draining on close.
*/
module AdmissionSafety {
  import opened Wrappers
  import opened Models
  import opened Admission
  import AC = AdaptiveClipping

  // ---------------------------------------------------------------- the invariant

  /** Live and finished requests partition the ids accepted so far. */
  ghost predicate Accounted(q: Queue) {
    && (forall id: Id :: id < q.nextId <==> id in q.entries || id in q.results)
    && (forall id :: id in q.entries ==> id !in q.results)
  }

  ghost predicate EntryOk(e: Entry, now: real) {
    && e.enqueue <= now
    && (e.forced.Some? ==> e.forced.value in {Timeout, Cancelled})
    && (e.phase.Waiting? ==> e.dispatch.None? && e.forced.None?)
    && (e.phase.InFlight? ==> e.dispatch.Some? && e.enqueue <= e.dispatch.value <= now)
  }

  /** Times are ordered, and only a dispatched request can succeed or fail in the backend. */
  ghost predicate ResultOk(r: AdmissionResult) {
    && r.enqueue <= r.completion
    && (r.dispatch.Some? ==> r.enqueue <= r.dispatch.value <= r.completion)
    && r.status != Rejected
    && (r.dispatch.None? ==> r.status in {Timeout, Cancelled})
  }

  ghost predicate Timed(su: Setup, q: Queue) {
    && (forall id :: id in q.entries ==> EntryOk(q.entries[id], su.clock(q.tick)))
    && (forall id :: id in q.results ==> ResultOk(q.results[id]))
    && (q.signal.last.Some? ==> q.signal.last.value <= su.clock(q.tick))
  }

  ghost predicate Bounded(su: Setup, q: Queue) {
    |Flying(q.entries)| <= su.maxInFlight && |q.waiting| <= su.capacity
  }

  /** While open, nothing waits unless every slot is used; otherwise nothing waits at all. */
  ghost predicate Busy(su: Setup, q: Queue) {
    |q.waiting| > 0 ==> Accepting(q) && |Flying(q.entries)| == su.maxInFlight
  }

  ghost predicate Consistent(su: Setup, q: Queue) {
    Sound(q) && Accounted(q) && Timed(su, q) && Bounded(su, q)
  }

  ghost predicate Inv(su: Setup, q: Queue) {
    Consistent(su, q) && Busy(su, q)
  }

  // ---------------------------------------------------------------- counting slots

  lemma FlyingAfterUpdate(entries: map<Id, Entry>, id: Id, e: Entry)
    ensures Flying(entries[id := e]) == if e.phase.InFlight? then Flying(entries) + {id} else Flying(entries) - {id}
  {
  }

  lemma FlyingAfterRemove(entries: map<Id, Entry>, id: Id)
    ensures Flying(entries - {id}) == Flying(entries) - {id}
  {
  }

  // ---------------------------------------------------------------- the parts of a step

  /** What the invariant says of one waiting request. */
  lemma WaitingFacts(su: Setup, q: Queue, id: Id)
    requires Consistent(su, q) && (id in q.waiting || (id in q.entries && q.entries[id].phase.Waiting?))
    ensures id in q.waiting && id in q.entries && id !in q.results && id !in Flying(q.entries)
    ensures q.entries[id].phase.Waiting? && q.entries[id].dispatch.None?
  {
    assert id in q.entries;
    assert EntryOk(q.entries[id], su.clock(q.tick));
  }

  /** What the invariant says of one request in flight. */
  lemma FlyingFacts(su: Setup, q: Queue, id: Id)
    requires Consistent(su, q) && id in q.entries && q.entries[id].phase.InFlight?
    ensures id !in q.waiting && id !in q.results && q.entries[id].dispatch.Some?
  {
    assert EntryOk(q.entries[id], su.clock(q.tick));
  }

  lemma CompleteEffect(su: Setup, q: Queue, id: Id, status: Status)
    requires id in q.entries
    ensures var c := Complete(su, q, id, status);
            && c.waiting == q.waiting && c.nextId == q.nextId && c.entries == q.entries - {id}
            && c.results == q.results[id := c.results[id]]
            && Flying(c.entries) == Flying(q.entries) - {id}
  {
    FlyingAfterRemove(q.entries, id);
  }

  lemma LaterKeeps(su: Setup, q: Queue, ticks: nat)
    requires Steady(su.clock) && Accounted(q) && Timed(su, q) && q.tick <= ticks
    ensures Accounted(Later(q, ticks)) && Timed(su, Later(q, ticks))
  {
    assert su.clock(q.tick) <= su.clock(ticks);
  }

  /** Finishing a live entry, at any status it may end with, keeps the table consistent. */
  lemma CompleteKeeps(su: Setup, q: Queue, id: Id, status: Status)
    requires Steady(su.clock) && Accounted(q) && Timed(su, q) && id in q.entries
    requires status != Rejected && (q.entries[id].dispatch.None? ==> status in {Timeout, Cancelled})
    ensures Accounted(Complete(su, q, id, status)) && Timed(su, Complete(su, q, id, status))
  {
    var c := Complete(su, q, id, status);
    LaterKeeps(su, q, c.tick);
    assert ResultOk(c.results[id]);
  }

  lemma DispatchKeeps(su: Setup, q: Queue, id: Id)
    requires Steady(su.clock) && Usable(su) && AC.WellFormed(q.levels) && Accounted(q) && Timed(su, q)
    requires id in q.entries && q.entries[id].phase.Waiting?
    ensures Accounted(Dispatch(su, q, id)) && Timed(su, Dispatch(su, q, id))
    ensures Flying(Dispatch(su, q, id).entries) == Flying(q.entries) + {id}
  {
    var d := Dispatch(su, q, id);
    DispatchEffect(su, q, id);
    FlyingAfterUpdate(q.entries, id, d.entries[id]);
    assert su.clock(q.tick) <= su.clock(d.tick - 1) <= su.clock(d.tick);
  }

  lemma PoppedKeeps(su: Setup, q: Queue)
    requires Steady(su.clock) && Usable(su) && Sound(q) && |q.waiting| > 0 && Accounted(q) && Timed(su, q)
    ensures Accounted(Popped(su, q)) && Timed(su, Popped(su, q))
  {
    LaterKeeps(su, q, Popped(su, q).tick);
  }

  /** One admission keeps the table consistent and uses at most one more slot. */
  lemma AdmitOneKeeps(su: Setup, q: Queue)
    requires Steady(su.clock) && Usable(su) && Consistent(su, q) && CanAdmit(su, q)
    ensures Consistent(su, AdmitOne(su, q))
    ensures var q' := AdmitOne(su, q);
            && (q'.started, q'.closing, q'.closed, q'.nextId) == (q.started, q.closing, q.closed, q.nextId)
            && |Flying(q.entries)| <= |Flying(q'.entries)| <= |Flying(q.entries)| + 1
  {
    var id, popped := q.waiting[Selected(su, q)], Popped(su, q);
    AdmitOneIsSound(su, q);
    PoppedKeeps(su, q);
    assert id in q.waiting && id !in Flying(q.entries);
    if Overdue(su, popped, id) {
      CompleteKeeps(su, popped, id, Timeout);
      CompleteEffect(su, popped, id, Timeout);
      assert Flying(q.entries) - {id} == Flying(q.entries);
    } else {
      DispatchKeeps(su, popped, id);
      DispatchEffect(su, popped, id);
    }
  }

  /** The admission loop keeps the table consistent and stops only with nothing to admit. */
  lemma {:induction false} AdmitKeeps(su: Setup, q: Queue)
    requires Steady(su.clock) && Usable(su) && Consistent(su, q)
    ensures Consistent(su, Admit(su, q)) && !CanAdmit(su, Admit(su, q))
    ensures var q' := Admit(su, q);
            && (q'.started, q'.closing, q'.closed, q'.nextId) == (q.started, q.closing, q.closed, q.nextId)
            && |q'.waiting| <= |q.waiting|
    decreases |q.waiting|
  {
    if CanAdmit(su, q) {
      AdmitOneKeeps(su, q);
      AdmitOneIsSound(su, q);
      AdmitKeeps(su, AdmitOne(su, q));
    }
  }

  lemma AdmittedIsBusy(su: Setup, q: Queue)
    requires Steady(su.clock) && Usable(su) && Consistent(su, q) && (|q.waiting| > 0 ==> Accepting(q))
    ensures Inv(su, Admit(su, q))
  {
    AdmitKeeps(su, q);
  }

  // ---------------------------------------------------------------- the steps

  lemma AddedIsConsistent(su: Setup, q: Queue, e: Envelope, enqueue: real)
    requires Steady(su.clock) && Inv(su, q) && !Full(su, q)
    requires q.tick > 0 && enqueue <= su.clock(q.tick - 1)
    ensures Consistent(su, AddWaiting(q, e, enqueue))
    ensures Flying(AddWaiting(q, e, enqueue).entries) == Flying(q.entries)
  {
    var a := AddWaiting(q, e, enqueue);
    assert q.nextId !in q.entries;
    FlyingAfterUpdate(q.entries, q.nextId, a.entries[q.nextId]);
    assert Flying(q.entries) - {q.nextId} == Flying(q.entries);
    AddedIsSound(q, e, enqueue);
    AddedIsAccounted(q, e, enqueue);
    AddedIsTimed(su, q, e, enqueue);
  }

  lemma AddedIsTimed(su: Setup, q: Queue, e: Envelope, enqueue: real)
    requires Steady(su.clock) && Timed(su, q) && q.tick > 0 && enqueue <= su.clock(q.tick - 1)
    ensures Timed(su, AddWaiting(q, e, enqueue))
  {
    assert su.clock(q.tick - 1) <= su.clock(q.tick);
  }

  lemma AddedIsAccounted(q: Queue, e: Envelope, enqueue: real)
    requires Accounted(q)
    ensures Accounted(AddWaiting(q, e, enqueue))
  {
  }

  lemma SubmitKeeps(su: Setup, q: Queue, e: Envelope, enqueue: real)
    requires ValidSetup(su) && Inv(su, q) && Accepting(q) && !Full(su, q)
    requires q.tick > 0 && enqueue <= su.clock(q.tick - 1)
    ensures Inv(su, Admit(su, AddWaiting(q, e, enqueue)))
  {
    AddedIsConsistent(su, q, e, enqueue);
    AdmittedIsBusy(su, AddWaiting(q, e, enqueue));
  }

  lemma FinishedIsConsistent(su: Setup, q: Queue, id: Id, outcome: Status)
    requires Steady(su.clock) && Inv(su, q) && Enabled(su, q, BackendFinish(id, outcome))
    ensures Consistent(su, Finish(su, q, id, outcome))
    ensures Flying(Finish(su, q, id, outcome).entries) == Flying(q.entries) - {id}
  {
    InFlightWasSent(su, q, id, outcome);
    LaterIsConsistent(su, q, Decided(q, id).tick);
    CompletedIsConsistent(su, Decided(q, id), id, FinalStatus(su, q, id, outcome));
  }

  lemma LaterIsConsistent(su: Setup, q: Queue, ticks: nat)
    requires Steady(su.clock) && Consistent(su, q) && q.tick <= ticks
    ensures Consistent(su, Later(q, ticks))
  {
    LaterKeeps(su, q, ticks);
  }

  lemma CompletedIsConsistent(su: Setup, q: Queue, id: Id, status: Status)
    requires Steady(su.clock) && Consistent(su, q) && id in q.entries && q.entries[id].phase.InFlight?
    requires q.entries[id].dispatch.Some? && status != Rejected
    ensures Consistent(su, Complete(su, q, id, status))
    ensures Flying(Complete(su, q, id, status).entries) == Flying(q.entries) - {id}
  {
    assert id !in q.waiting;
    CompletedIsSound(su, q, id, status);
    CompletedIsBounded(su, q, id, status);
  }

  lemma InFlightWasSent(su: Setup, q: Queue, id: Id, outcome: Status)
    requires Timed(su, q) && Enabled(su, q, BackendFinish(id, outcome))
    ensures q.entries[id].dispatch.Some? && FinalStatus(su, q, id, outcome) != Rejected
  {
    assert EntryOk(q.entries[id], su.clock(q.tick));
  }

  lemma CompletedIsBounded(su: Setup, q: Queue, id: Id, status: Status)
    requires Steady(su.clock) && Accounted(q) && Timed(su, q) && Bounded(su, q) && id in q.entries && status != Rejected
    requires q.entries[id].dispatch.None? ==> status in {Timeout, Cancelled}
    ensures var c := Complete(su, q, id, status);
            Accounted(c) && Timed(su, c) && Bounded(su, c) && Flying(c.entries) == Flying(q.entries) - {id}
  {
    CompleteKeeps(su, q, id, status);
    CompleteEffect(su, q, id, status);
  }

  lemma FinishKeeps(su: Setup, q: Queue, id: Id, outcome: Status)
    requires ValidSetup(su) && Inv(su, q) && Enabled(su, q, BackendFinish(id, outcome))
    ensures Inv(su, Admit(su, Finish(su, q, id, outcome)))
  {
    FinishedIsConsistent(su, q, id, outcome);
    AdmittedIsBusy(su, Finish(su, q, id, outcome));
  }

  lemma {:induction false} WithoutRemoves(ids: seq<Id>, id: Id)
    requires id in ids && Distinct(ids)
    ensures |Without(ids, id)| == |ids| - 1 && Distinct(Without(ids, id))
    ensures forall x :: x in Without(ids, id) <==> x in ids && x != id
  {
    var tail := ids[1..];
    assert ids == [ids[0]] + tail && Distinct(tail) && ids[0] !in tail;
    if ids[0] != id {
      WithoutRemoves(tail, id);
      assert ids[0] !in Without(tail, id);
    }
  }

  lemma DropKeeps(su: Setup, q: Queue, id: Id, status: Status)
    requires Steady(su.clock) && Inv(su, q) && id in q.entries && q.entries[id].phase.Waiting?
        && status in {Timeout, Cancelled}
    ensures Inv(su, DropWaiting(su, q, id, status))
    ensures Flying(DropWaiting(su, q, id, status).entries) == Flying(q.entries)
  {
    var without := LeaveLine(q, id);
    WithoutRemoves(q.waiting, id);
    assert forall i :: 0 <= i < |without.waiting| ==> without.waiting[i] in q.waiting;
    CompletedIsSound(su, without, id, status);
    CompleteKeeps(su, without, id, status);
    CompleteEffect(su, without, id, status);
    assert Flying(q.entries) - {id} == Flying(q.entries);
  }

  lemma ForceKeeps(su: Setup, q: Queue, id: Id, status: Status)
    requires Inv(su, q) && id in q.entries && q.entries[id].phase.InFlight? && status in {Timeout, Cancelled}
    ensures Inv(su, Force(q, id, status))
    ensures Flying(Force(q, id, status).entries) == Flying(q.entries)
  {
    FlyingAfterUpdate(q.entries, id, q.entries[id].(forced := Some(status)));
    assert Flying(q.entries) + {id} == Flying(q.entries);
  }

  lemma {:induction false} DrainKeeps(su: Setup, q: Queue)
    requires Steady(su.clock) && Consistent(su, q)
    ensures Consistent(su, DrainWaiting(su, q)) && DrainWaiting(su, q).waiting == []
    ensures Flying(DrainWaiting(su, q).entries) == Flying(q.entries)
    ensures (DrainWaiting(su, q).nextId, DrainWaiting(su, q).decisions) == (q.nextId, q.decisions)
    decreases |q.waiting|
  {
    if |q.waiting| > 0 {
      DrainOneKeeps(su, q);
      DrainKeeps(su, DrainOne(su, q));
    }
  }

  lemma DrainOneKeeps(su: Setup, q: Queue)
    requires Steady(su.clock) && Consistent(su, q) && |q.waiting| > 0
    ensures Consistent(su, DrainOne(su, q)) && Flying(DrainOne(su, q).entries) == Flying(q.entries)
    ensures (DrainOne(su, q).nextId, DrainOne(su, q).decisions) == (q.nextId, q.decisions)
  {
    var id, rest := q.waiting[0], Behind(q);
    WaitingFacts(su, q, id);
    assert q.waiting == [id] + rest.waiting;
    CompletedIsSound(su, rest, id, Cancelled);
    CompleteKeeps(su, rest, id, Cancelled);
    CompleteEffect(su, rest, id, Cancelled);
    assert Flying(q.entries) - {id} == Flying(q.entries);
  }

  lemma ForceFlyingKeeps(su: Setup, q: Queue)
    requires Consistent(su, q) && q.waiting == []
    ensures Inv(su, ForceFlying(q)) && Flying(ForceFlying(q).entries) == Flying(q.entries)
  {
    assert Flying(ForceFlying(q).entries) == Flying(q.entries);
  }

  lemma ReadKeeps(su: Setup, q: Queue)
    requires Steady(su.clock) && Inv(su, q)
    ensures Inv(su, Later(q, q.tick + 1))
  {
    LaterKeeps(su, q, q.tick + 1);
  }

  lemma BeginCloseKeeps(su: Setup, q: Queue)
    requires ValidSetup(su) && Inv(su, q)
    ensures Inv(su, Apply(su, q, BeginClose))
    ensures Flying(Apply(su, q, BeginClose).entries) == Flying(q.entries)
  {
    if !q.closed && q.started {
      DrainKeeps(su, Closing(q));
      ForceFlyingKeeps(su, DrainWaiting(su, Closing(q)));
    }
  }

  /** Every enabled step keeps the invariant, whatever the interleaving. */
  lemma StepKeepsInv(su: Setup, q: Queue, step: Step)
    requires ValidSetup(su) && Inv(su, q) && Enabled(su, q, step)
    ensures Inv(su, Apply(su, q, step))
  {
    match step
    case Start =>
    case Read => ReadKeeps(su, q);
    case Submit(e, enqueue) =>
      if Accepting(q) {
        if Full(su, q) { ReadKeeps(su, q); } else { SubmitKeeps(su, q, e, enqueue); }
      }
    case BackendFinish(id, outcome) => FinishKeeps(su, q, id, outcome);
    case TimerFire(id) =>
      if id in q.entries {
        if q.entries[id].phase.Waiting? { DropKeeps(su, q, id, Timeout); } else { ForceKeeps(su, q, id, Timeout); }
      }
    case SubmitterCancel(id) =>
      if id in q.entries {
        if q.entries[id].phase.Waiting? { DropKeeps(su, q, id, Cancelled); } else { ForceKeeps(su, q, id, Cancelled); }
      }
    case BeginClose => BeginCloseKeeps(su, q);
    case EndClose(aborted) =>
  }

  // ---------------------------------------------------------------- runs

  /** Step k of a run is enabled and takes states[k] to states[k+1]. */
  ghost predicate StepsAt(su: Setup, states: seq<Queue>, steps: seq<Step>, k: nat)
    requires Usable(su) && |states| == |steps| + 1 && k < |steps|
  {
    Sound(states[k]) ==> Enabled(su, states[k], steps[k]) && states[k + 1] == Apply(su, states[k], steps[k])
  }

  /** Any interleaving of enabled steps. */
  ghost predicate IsRun(su: Setup, states: seq<Queue>, steps: seq<Step>) {
    && ValidSetup(su) && |states| == |steps| + 1
    && forall k :: 0 <= k < |steps| ==> StepsAt(su, states, steps, k)
  }

  /** The invariant, once true in a run, stays true. */
  lemma {:induction false} InvAlways(su: Setup, states: seq<Queue>, steps: seq<Step>, a: nat, k: nat)
    requires IsRun(su, states, steps) && a <= k <= |steps| && Inv(su, states[a])
    ensures forall i :: a <= i <= k ==> Inv(su, states[i])
    decreases k - a
  {
    if a < k {
      InvAlways(su, states, steps, a, k - 1);
      InvNext(su, states, steps, a, k - 1);
    }
  }

  lemma InvNext(su: Setup, states: seq<Queue>, steps: seq<Step>, a: nat, k: nat)
    requires IsRun(su, states, steps) && a <= k < |steps| && forall i :: a <= i <= k ==> Inv(su, states[i])
    ensures forall i :: a <= i <= k + 1 ==> Inv(su, states[i])
  {
    assert StepsAt(su, states, steps, k);
    StepKeepsInv(su, states[k], steps[k]);
  }

  /** The queue invariant holds throughout every run of a new queue. */
  lemma QueueIsSafe(su: Setup, states: seq<Queue>, steps: seq<Step>, k: nat)
    requires IsRun(su, states, steps) && k <= |steps| && states[0] == EMPTY
    ensures Inv(su, states[k])
  {
    assert Flying(EMPTY.entries) == {};
    InvAlways(su, states, steps, 0, k);
  }

  // ---------------------------------------------------------------- capacity

  function IdSet(ids: seq<Id>): (s: set<Id>)
    ensures forall id :: id in s <==> id in ids
  {
    set id | id in ids
  }

  lemma {:induction false} DistinctCount(ids: seq<Id>)
    requires Distinct(ids)
    ensures |IdSet(ids)| == |ids|
  {
    if |ids| > 0 {
      var tail := ids[1..];
      assert ids == [ids[0]] + tail && Distinct(tail) && ids[0] !in IdSet(tail);
      DistinctCount(tail);
      assert IdSet(ids) == IdSet(tail) + {ids[0]};
    }
  }

  /** Every live request either waits or is in flight. */
  lemma LiveCount(q: Queue)
    requires Sound(q)
    ensures |q.entries| == |q.waiting| + |Flying(q.entries)|
  {
    var waiting, flying := IdSet(q.waiting), Flying(q.entries);
    DistinctCount(q.waiting);
    forall id | id in waiting ensures id in q.entries && id !in flying {
      var i :| 0 <= i < |q.waiting| && q.waiting[i] == id;
    }
    assert q.entries.Keys == waiting + flying && waiting !! flying;
    assert |waiting + flying| == |waiting| + |flying|;
  }

  /** An open queue refuses a request exactly when maxInFlight + queue_capacity requests are live. */
  lemma RejectsOnlyWhenFull(su: Setup, q: Queue)
    requires ValidSetup(su) && Inv(su, q)
    ensures Full(su, q) <==> |q.entries| == su.maxInFlight + su.capacity
  {
    LiveCount(q);
  }

  // ---------------------------------------------------------------- results

  /** q' keeps every result of q, and whatever it adds is a timeout. */
  ghost predicate AddsTimeouts(q: Queue, q': Queue) {
    && (forall id :: id in q.results ==> id in q'.results && q'.results[id] == q.results[id])
    && (forall id :: id in q'.results && id !in q.results ==> q'.results[id].status == Timeout)
  }

  lemma {:induction false} AdmitAddsTimeouts(su: Setup, q: Queue)
    requires Steady(su.clock) && Usable(su) && Consistent(su, q)
    ensures AddsTimeouts(q, Admit(su, q))
    decreases |q.waiting|
  {
    if CanAdmit(su, q) {
      var id, popped := q.waiting[Selected(su, q)], Popped(su, q);
      AdmitOneKeeps(su, q);
      AdmitOneIsSound(su, q);
      assert id in q.entries && id !in q.results;
      if Overdue(su, popped, id) {
        CompleteEffect(su, popped, id, Timeout);
      } else {
        DispatchEffect(su, popped, id);
      }
      assert AddsTimeouts(q, AdmitOne(su, q));
      AdmitAddsTimeouts(su, AdmitOne(su, q));
    }
  }

  lemma {:induction false} DrainCancels(su: Setup, q: Queue)
    requires Steady(su.clock) && Consistent(su, q)
    ensures var d := DrainWaiting(su, q);
            && (forall id :: id in q.results ==> id in d.results && d.results[id] == q.results[id])
            && (forall id :: id in d.results && id !in q.results ==> d.results[id].status == Cancelled)
    decreases |q.waiting|
  {
    if |q.waiting| > 0 {
      WaitingFacts(su, q, q.waiting[0]);
      DrainOneKeeps(su, q);
      DrainCancels(su, DrainOne(su, q));
    }
  }

  lemma FinishedResult(su: Setup, q: Queue, done: Id, outcome: Status)
    requires done in q.entries && done !in q.results
    ensures var f := Finish(su, q, done, outcome);
            && done in f.results && f.results[done].status == FinalStatus(su, q, done, outcome)
            && f.results == q.results[done := f.results[done]]
  {
  }

  lemma FinishIsFinal(su: Setup, q: Queue, done: Id, outcome: Status, id: Id)
    requires ValidSetup(su) && Inv(su, q) && Enabled(su, q, BackendFinish(done, outcome))
    ensures var r := Admit(su, Finish(su, q, done, outcome)).results;
            && (id in q.results ==> id in r && r[id] == q.results[id])
            && (id !in q.results && id in r && r[id].status == Status.Success <==>
                  && id == done && outcome == Status.Success && q.entries[id].forced.None?
                  && su.clock(q.tick) - q.entries[id].enqueue < su.timeout)
  {
    var f := Finish(su, q, done, outcome);
    FinishAddsTimeouts(su, q, done, outcome);
    FinishedResult(su, q, done, outcome);
    assert EntryOk(q.entries[done], su.clock(q.tick));
    TimeoutsAfter(q, f, Admit(su, f), done, id);
  }

  lemma FinishAddsTimeouts(su: Setup, q: Queue, done: Id, outcome: Status)
    requires ValidSetup(su) && Inv(su, q) && Enabled(su, q, BackendFinish(done, outcome))
    ensures done in q.entries && done !in q.results
    ensures AddsTimeouts(Finish(su, q, done, outcome), Admit(su, Finish(su, q, done, outcome)))
  {
    FlyingFacts(su, q, done);
    FinishedIsConsistent(su, q, done, outcome);
    AdmitAddsTimeouts(su, Finish(su, q, done, outcome));
  }

  lemma SubmitAddsTimeouts(su: Setup, q: Queue, e: Envelope, enqueue: real)
    requires ValidSetup(su) && Inv(su, q) && Enabled(su, q, Submit(e, enqueue)) && Accepting(q) && !Full(su, q)
    ensures AddsTimeouts(q, Admit(su, AddWaiting(q, e, enqueue)))
  {
    AddedIsConsistent(su, q, e, enqueue);
    AdmitAddsTimeouts(su, AddWaiting(q, e, enqueue));
  }

  /** After one result for `done`, timeouts only. */
  lemma TimeoutsAfter(q: Queue, f: Queue, q': Queue, done: Id, id: Id)
    requires done !in q.results && done in f.results && f.results == q.results[done := f.results[done]]
    requires AddsTimeouts(f, q')
    ensures id in q.results ==> id in q'.results && q'.results[id] == q.results[id]
    ensures (id !in q.results && id in q'.results && q'.results[id].status == Status.Success)
       <==> id == done && f.results[done].status == Status.Success
  {
  }

  /** q' keeps every result of q and adds no SUCCESS. */
  ghost predicate AddsNoSuccess(q: Queue, q': Queue) {
    && (forall id :: id in q.results ==> id in q'.results && q'.results[id] == q.results[id])
    && (forall id :: id in q'.results && id !in q.results ==> q'.results[id].status != Status.Success)
  }

  lemma OthersAddNoSuccess(su: Setup, q: Queue, step: Step)
    requires ValidSetup(su) && Inv(su, q) && Enabled(su, q, step) && !step.BackendFinish?
    ensures AddsNoSuccess(q, Apply(su, q, step))
  {
    match step
    case Submit(e, enqueue) =>
      if Accepting(q) && !Full(su, q) {
        SubmitAddsTimeouts(su, q, e, enqueue);
      }
    case BeginClose =>
      if !q.closed && q.started {
        DrainCancels(su, Closing(q));
      }
    case _ =>
  }

  /**
   A result, once set, never changes; and a step sets SUCCESS exactly when it is the backend finishing that request
   with success, unforced, with the terminal reading short of the total timeout.
   */
  lemma ResultsAreFinal(su: Setup, q: Queue, step: Step, id: Id)
    requires ValidSetup(su) && Inv(su, q) && Enabled(su, q, step)
    ensures id in q.results ==> id in Apply(su, q, step).results && Apply(su, q, step).results[id] == q.results[id]
    ensures (id !in q.results && id in Apply(su, q, step).results
             && Apply(su, q, step).results[id].status == Status.Success)
       <==> (step == BackendFinish(id, Status.Success) && id in q.entries && q.entries[id].forced.None?
             && su.clock(q.tick) - q.entries[id].enqueue < su.timeout)
  {
    if step.BackendFinish? {
      FinishIsFinal(su, q, step.id, step.outcome, id);
    } else {
      OthersAddNoSuccess(su, q, step);
    }
  }

  // ---------------------------------------------------------------- closing

  ghost predicate ShuttingDown(q: Queue) {
    q.closing || q.closed
  }

  /**
   Once close has begun nothing is dispatched: no request enters flight, no decision is logged, a
   finishing backend frees its slot, and the queue never opens again.
   */
  lemma ShutdownOnlyDrains(su: Setup, q: Queue, step: Step)
    requires ValidSetup(su) && Inv(su, q) && Enabled(su, q, step) && ShuttingDown(q)
    ensures ShuttingDown(Apply(su, q, step)) && Apply(su, q, step).decisions == q.decisions
    ensures Flying(Apply(su, q, step).entries)
        == if step.BackendFinish? then Flying(q.entries) - {step.id} else Flying(q.entries)
  {
    assert q.waiting == [];
    match step
    case BackendFinish(id, outcome) =>
      FinishedIsConsistent(su, q, id, outcome);
    case TimerFire(id) =>
      if id in q.entries { ForceKeeps(su, q, id, Timeout); }
    case SubmitterCancel(id) =>
      if id in q.entries { ForceKeeps(su, q, id, Cancelled); }
    case BeginClose => BeginCloseKeeps(su, q); DrainKeeps(su, Closing(q));
    case _ =>
  }

  /** A close that waited for every runner leaves no live request, and none ever appears again. */
  lemma ClosedHoldsNothing(su: Setup, q: Queue, step: Step)
    requires ValidSetup(su) && Inv(su, q) && Enabled(su, q, step)
    ensures step == EndClose(false) ==> Apply(su, q, step).entries == map[]
    ensures ShuttingDown(q) && q.entries == map[] ==> Apply(su, q, step).entries == map[]
  {
    LiveCount(q);
    StepKeepsInv(su, q, step);
    var q' := Apply(su, q, step);
    LiveCount(q');
    if ShuttingDown(q) {
      ShutdownOnlyDrains(su, q, step);
    }
  }
}
