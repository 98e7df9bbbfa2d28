/**
 The bounded admission queue as a protocol: every critical section of the source is one atomic step of
 `Apply`, and a run is any interleaving of enabled steps. The clock is an arbitrary sequence of
 readings; each read consumes the next one.
*/
module Admission {
  import opened Wrappers
  import opened Models
  import opened Clipping
  import opened Policies
  import AC = AdaptiveClipping

  type Id = nat

  datatype Phase = Waiting | InFlight

  /** A live entry; a finished one has left the table and holds a result. */
  datatype Entry = Entry(envelope: Envelope, enqueue: real, phase: Phase, dispatch: Option<real>,
      forced: Option<Status>)

  datatype AdmissionResult = AdmissionResult(
    status: Status,
    enqueue: real,
    dispatch: Option<real>,
    completion: real,
    effective: Envelope)

  datatype AdmissionDecision = AdmissionDecision(requestId: string, decision: AC.Decision)

  datatype Adaptive = Adaptive(cfg: AC.Config, decay: real -> real, estimate: Estimator)

  /** Fixed parameters; `clock` is the sequence of readings. */
  datatype Setup = Setup(
    capacity: nat,
    maxInFlight: nat,
    timeout: real,
    policy: Policy,
    clock: nat -> real,
    adaptive: Option<Adaptive>)

  ghost predicate Steady(clock: nat -> real) {
    forall i, j :: i <= j ==> clock(i) <= clock(j)
  }

  predicate Usable(su: Setup) {
    ValidPolicy(su.policy)
        && (su.adaptive.Some? ==> AC.Shaped(su.adaptive.value.cfg) && CapsPositive(su.adaptive.value.cfg))
  }

  predicate CapsPositive(cfg: AC.Config) {
    forall i :: 0 <= i < |cfg.caps| ==> cfg.caps[i] >= 1
  }

  ghost predicate ValidSetup(su: Setup) {
    && su.capacity >= 1 && su.maxInFlight >= 1 && su.timeout > 0.0
    && ValidPolicy(su.policy)
    && Steady(su.clock) && Usable(su)
    && (su.adaptive.Some? ==> AC.ValidConfig(su.adaptive.value.cfg))
  }

  datatype Queue = Queue(
    waiting: seq<Id>,
    entries: map<Id, Entry>,
    results: map<Id, AdmissionResult>,
    nextId: Id,
    tick: nat,
    started: bool,
    closing: bool,
    closed: bool,
    signal: AC.Signal,
    levels: AC.LevelState,
    decisions: seq<AdmissionDecision>)

  const EMPTY := Queue([], map[], map[], 0, 0, false, false, false, AC.QUIET, AC.INITIAL, [])

  predicate Accepting(q: Queue) {
    q.started && !q.closing && !q.closed
  }

  function Flying(entries: map<Id, Entry>): set<Id> {
    set id | id in entries && entries[id].phase.InFlight?
  }

  /** The order ids wait in names live waiting entries. */
  predicate Tabled(q: Queue) {
    forall i :: 0 <= i < |q.waiting| ==> q.waiting[i] in q.entries
  }

  function Envelopes(q: Queue): (es: seq<Envelope>)
    requires Tabled(q)
    ensures |es| == |q.waiting|
  {
    seq(|q.waiting|, i requires 0 <= i < |q.waiting| => q.entries[q.waiting[i]].envelope)
  }

  function RemoveAt(ids: seq<Id>, i: nat): (r: seq<Id>)
    requires i < |ids|
    ensures |r| == |ids| - 1
    ensures forall k :: 0 <= k < |r| ==> r[k] == if k < i then ids[k] else ids[k + 1]
  {
    ids[..i] + ids[i + 1..]
  }

  // ---------------------------------------------------------------- completing and dispatching

  /** Finishes a live entry; a finished one is left alone. */
  function Complete(su: Setup, q: Queue, id: Id, status: Status): Queue {
    if id !in q.entries then q
    else
      var e := q.entries[id];
      q.(entries := q.entries - {id},
         results := q.results[id := AdmissionResult(status, e.enqueue, e.dispatch, su.clock(q.tick), e.envelope)],
         tick := q.tick + 1)
  }

  /** The depth expected to keep waiting once every free slot besides the selected one is filled. */
  function StableDepth(su: Setup, q: Queue): nat {
    var free := su.maxInFlight - |Flying(q.entries)| - 1;
    if |q.waiting| - free > 0 then |q.waiting| - free else 0
  }

  /** What the cap controller does at a dispatch: the new signal and levels, and its decision. */
  function Consult(su: Setup, q: Queue): (d: (AC.Signal, AC.LevelState, AC.Decision))
    requires Usable(su) && su.adaptive.Some? && AC.WellFormed(q.levels)
    ensures AC.WellFormed(d.1) && d.2.selectedCap == AC.Cap(su.adaptive.value.cfg, d.1.level)
    ensures d.2.selectedCap.Some? ==> d.2.selectedCap.value >= 1
    ensures d.0.last == Some(su.clock(q.tick)) && d.2.newLevel == d.1.level && d.2.qInst == StableDepth(su, q)
  {
    var a, now, depth := su.adaptive.value, su.clock(q.tick), StableDepth(su, q);
    var signal := AC.Observe(a.decay, q.signal, depth, now);
    var p := AC.Pressure(signal);
    var levels := AC.Step(a.cfg, q.levels, p, now);
    var cap := AC.Cap(a.cfg, levels.level);
    var trigger := AC.Label(a.cfg, q.levels, p, now);
    (signal, levels, AC.Decision(now, depth, signal.qBar, q.levels.level, levels.level, cap, trigger))
  }

  /** Moves a popped entry to the backend. */
  function Launch(su: Setup, q: Queue, id: Id, envelope: Envelope): Queue
    requires id in q.entries
  {
    var e := q.entries[id].(envelope := envelope, phase := InFlight, dispatch := Some(su.clock(q.tick)));
    q.(entries := q.entries[id := e], tick := q.tick + 1)
  }

  /** Sends a popped entry to the backend, first consulting the cap controller if there is one. */
  function Dispatch(su: Setup, q: Queue, id: Id): Queue
    requires Usable(su) && id in q.entries && AC.WellFormed(q.levels)
  {
    var envelope := q.entries[id].envelope;
    match su.adaptive
    case None => Launch(su, q, id, envelope)
    case Some(a) =>
      var (signal, levels, decision) := Consult(su, q);
      var consulted := q.(signal := signal, levels := levels, tick := q.tick + 1,
                          decisions := q.decisions + [AdmissionDecision(envelope.requestId, decision)]);
      Launch(su, consulted, id, Capped(a.estimate, envelope, decision.selectedCap))
  }

  /** The position the policy selects, at the next clock reading. */
  function Selected(su: Setup, q: Queue): (i: nat)
    requires Usable(su) && Tabled(q) && |q.waiting| > 0
    ensures i < |q.waiting|
  {
    Head(su.policy, Envelopes(q), su.clock(q.tick))
  }

  function Popped(su: Setup, q: Queue): Queue
    requires Usable(su) && Tabled(q) && |q.waiting| > 0
  {
    q.(waiting := RemoveAt(q.waiting, Selected(su, q)), tick := q.tick + 2)
  }

  predicate Overdue(su: Setup, q: Queue, id: Id)
    requires id in q.entries && q.tick > 0
  {
    su.clock(q.tick - 1) - q.entries[id].enqueue >= su.timeout
  }

  /** One iteration of the admission loop: pop the policy's choice, then drop it as overdue or send it. */
  function AdmitOne(su: Setup, q: Queue): Queue
    requires Usable(su) && Tabled(q) && |q.waiting| > 0 && AC.WellFormed(q.levels)
  {
    var id, popped := q.waiting[Selected(su, q)], Popped(su, q);
    if Overdue(su, popped, id) then Complete(su, popped, id, Timeout) else Dispatch(su, popped, id)
  }

  predicate CanAdmit(su: Setup, q: Queue) {
    !q.closing && |q.waiting| > 0 && |Flying(q.entries)| < su.maxInFlight
  }

  /** The admission loop. */
  function Admit(su: Setup, q: Queue): Queue
    requires Usable(su) && Sound(q)
    decreases |q.waiting|
  {
    if CanAdmit(su, q) then
      AdmitOneIsSound(su, q);
      Admit(su, AdmitOne(su, q))
    else q
  }

  // ---------------------------------------------------------------- the table

  ghost predicate Distinct(ids: seq<Id>) {
    forall i, j :: 0 <= i < j < |ids| ==> ids[i] != ids[j]
  }

  /** Waiting ids are distinct and are exactly the live entries that wait. */
  ghost predicate Sound(q: Queue) {
    && AC.WellFormed(q.levels)
    && Tabled(q)
    && Distinct(q.waiting)
    && (forall id :: id in q.entries ==> id < q.nextId && (q.entries[id].phase.Waiting? <==> id in q.waiting))
  }

  lemma RemovedIds(ids: seq<Id>, i: nat)
    requires i < |ids| && Distinct(ids)
    ensures Distinct(RemoveAt(ids, i))
    ensures forall id :: id in RemoveAt(ids, i) <==> id in ids && id != ids[i]
  {
    var r := RemoveAt(ids, i);
    forall id | id in ids && id != ids[i] ensures id in r {
      var k :| 0 <= k < |ids| && ids[k] == id;
      assert r[if k < i then k else k - 1] == id;
    }
  }

  /** What a dispatch leaves alone: everything but the sent entry, the controller and the clock. */
  lemma DispatchEffect(su: Setup, q: Queue, id: Id)
    requires Usable(su) && id in q.entries && AC.WellFormed(q.levels)
    ensures var d := Dispatch(su, q, id);
            && AC.WellFormed(d.levels) && q.tick < d.tick && d.waiting == q.waiting && d.nextId == q.nextId
            && d.results == q.results && id in d.entries && d.entries == q.entries[id := d.entries[id]]
            && (d.started, d.closing, d.closed) == (q.started, q.closing, q.closed)
            && d.entries[id].phase.InFlight? && d.entries[id].dispatch == Some(su.clock(d.tick - 1))
            && d.entries[id].enqueue == q.entries[id].enqueue && d.entries[id].forced == q.entries[id].forced
            && (d.signal == q.signal || (q.tick < d.tick - 1 && d.signal.last == Some(su.clock(q.tick))))
  {
    if su.adaptive.Some? {
      var _ := Consult(su, q);
    }
  }

  /** Waiting ids are distinct and, apart from a popped one, are exactly the live entries that wait. */
  ghost predicate SoundBut(q: Queue, popped: Id) {
    && AC.WellFormed(q.levels)
    && Tabled(q)
    && Distinct(q.waiting)
    && (forall id :: id in q.entries && id != popped ==>
        id < q.nextId && (q.entries[id].phase.Waiting? <==> id in q.waiting))
    && popped in q.entries && popped < q.nextId && popped !in q.waiting
  }

  lemma PoppedIsSound(su: Setup, q: Queue)
    requires Usable(su) && Sound(q) && |q.waiting| > 0
    ensures SoundBut(Popped(su, q), q.waiting[Selected(su, q)])
  {
    RemovedIds(q.waiting, Selected(su, q));
  }

  lemma CompletedIsSound(su: Setup, q: Queue, id: Id, status: Status)
    requires SoundBut(q, id)
    ensures Sound(Complete(su, q, id, status))
  {
  }

  lemma DispatchedIsSound(su: Setup, q: Queue, id: Id)
    requires Usable(su) && SoundBut(q, id)
    ensures Sound(Dispatch(su, q, id))
  {
    DispatchEffect(su, q, id);
  }

  lemma AdmitOneIsSound(su: Setup, q: Queue)
    requires Usable(su) && Sound(q) && |q.waiting| > 0
    ensures Sound(AdmitOne(su, q)) && |AdmitOne(su, q).waiting| == |q.waiting| - 1
  {
    var id, popped := q.waiting[Selected(su, q)], Popped(su, q);
    PoppedIsSound(su, q);
    if Overdue(su, popped, id) {
      CompletedIsSound(su, popped, id, Timeout);
    } else {
      DispatchedIsSound(su, popped, id);
      DispatchEffect(su, popped, id);
    }
  }

  // ---------------------------------------------------------------- the steps

  datatype Step =
    | Start
    | Read
    | Submit(envelope: Envelope, enqueue: real)
    | BackendFinish(id: Id, outcome: Status)
    | TimerFire(id: Id)
    | SubmitterCancel(id: Id)
    | BeginClose
    | EndClose(aborted: bool)

  function AddWaiting(q: Queue, envelope: Envelope, enqueue: real): Queue {
    q.(waiting := q.waiting + [q.nextId],
       entries := q.entries[q.nextId := Entry(envelope, enqueue, Waiting, None, None)],
       nextId := q.nextId + 1)
  }

  predicate Full(su: Setup, q: Queue) {
    |q.waiting| >= su.capacity
  }

  /** The queue at a later reading of the clock. */
  function Later(q: Queue, ticks: nat): Queue {
    q.(tick := ticks)
  }

  function LeaveLine(q: Queue, id: Id): Queue {
    q.(waiting := Without(q.waiting, id))
  }

  /** The queue once the first waiting request has stepped out of line. */
  function Behind(q: Queue): Queue
    requires |q.waiting| > 0
  {
    q.(waiting := q.waiting[1..])
  }

  function Closing(q: Queue): Queue {
    q.(closing := true)
  }

  function DropWaiting(su: Setup, q: Queue, id: Id, status: Status): Queue {
    Complete(su, LeaveLine(q, id), id, status)
  }

  function Without(ids: seq<Id>, id: Id): (r: seq<Id>) {
    if |ids| == 0 then [] else if ids[0] == id then ids[1..] else [ids[0]] + Without(ids[1..], id)
  }

  function Force(q: Queue, id: Id, status: Status): Queue
    requires id in q.entries
  {
    q.(entries := q.entries[id := q.entries[id].(forced := Some(status))])
  }

  /** The terminal status: a forced one wins, then the total timeout, then what the backend did. */
  function FinalStatus(su: Setup, q: Queue, id: Id, outcome: Status): Status
    requires id in q.entries
  {
    var e := q.entries[id];
    if e.forced.Some? then e.forced.value
    else if su.clock(q.tick) - e.enqueue >= su.timeout then Timeout
    else outcome
  }

  /** Deciding the status reads the clock unless the status was forced. */
  function Decided(q: Queue, id: Id): Queue
    requires id in q.entries
  {
    Later(q, if q.entries[id].forced.Some? then q.tick else q.tick + 1)
  }

  function Finish(su: Setup, q: Queue, id: Id, outcome: Status): Queue
    requires id in q.entries
  {
    Complete(su, Decided(q, id), id, FinalStatus(su, q, id, outcome))
  }

  /** Completes the first waiting entry as cancelled. */
  function DrainOne(su: Setup, q: Queue): (q': Queue)
    requires |q.waiting| > 0
    ensures |q'.waiting| == |q.waiting| - 1
  {
    Complete(su, Behind(q), q.waiting[0], Cancelled)
  }

  /** Completes every waiting entry as cancelled, in order. */
  function DrainWaiting(su: Setup, q: Queue): (q': Queue)
    ensures q'.waiting == []
    decreases |q.waiting|
  {
    if |q.waiting| == 0 then q
    else DrainWaiting(su, DrainOne(su, q))
  }

  function ForceFlying(q: Queue): Queue {
    q.(entries := map id | id in q.entries ::
         if q.entries[id].phase.InFlight? then q.entries[id].(forced := Some(Cancelled)) else q.entries[id])
  }

  /** When a step may happen. */
  predicate Enabled(su: Setup, q: Queue, step: Step) {
    match step
    case Start => true
    case Read => true
    case Submit(e, enqueue) => ValidEnvelope(e) && q.tick > 0 && enqueue <= su.clock(q.tick - 1)
    case BackendFinish(id, outcome) => id in q.entries && q.entries[id].phase.InFlight?
        && outcome in {Status.Success, Error, Cancelled}
    case TimerFire(id) =>
      && id < q.nextId
      && (id in q.entries ==> q.tick > 0 && q.entries[id].enqueue + su.timeout <= su.clock(q.tick - 1))
    case SubmitterCancel(id) => id < q.nextId
    case BeginClose => true
    case EndClose(aborted) => (q.closing || q.closed) && (!aborted ==> Flying(q.entries) == {})
  }

  function Apply(su: Setup, q: Queue, step: Step): Queue
    requires Usable(su) && Sound(q) && Enabled(su, q, step)
  {
    match step
    case Start => if q.closed then q else q.(started := true)
    case Read => Later(q, q.tick + 1)
    case Submit(e, enqueue) =>
      if !Accepting(q) then q
      else if Full(su, q) then Later(q, q.tick + 1)
      else
        AddedIsSound(q, e, enqueue);
        Admit(su, AddWaiting(q, e, enqueue))
    case BackendFinish(id, outcome) =>
      FinishedIsSound(su, q, id, outcome);
      Admit(su, Finish(su, q, id, outcome))
    case TimerFire(id) =>
      if id !in q.entries then q
      else if q.entries[id].phase.Waiting? then DropWaiting(su, q, id, Timeout)
      else Force(q, id, Timeout)
    case SubmitterCancel(id) =>
      if id !in q.entries then q
      else if q.entries[id].phase.Waiting? then DropWaiting(su, q, id, Cancelled)
      else Force(q, id, Cancelled)
    case BeginClose =>
      if q.closed then q
      else if !q.started then q.(closed := true)
      else ForceFlying(DrainWaiting(su, Closing(q)))
    case EndClose(aborted) => q.(closed := true, closing := false)
  }

  lemma AddedIsSound(q: Queue, e: Envelope, enqueue: real)
    requires Sound(q)
    ensures Sound(AddWaiting(q, e, enqueue))
  {
  }

  lemma FinishedIsSound(su: Setup, q: Queue, id: Id, outcome: Status)
    requires Sound(q) && id in q.entries && q.entries[id].phase.InFlight?
    ensures Sound(Finish(su, q, id, outcome))
  {
    assert id !in q.waiting;
  }
}
