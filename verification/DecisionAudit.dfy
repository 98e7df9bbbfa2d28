/**
 The audit that joins adaptive decisions to dispatched requests, and the proof that queue, controller
 and clipper together always produce a log it accepts.
*/
module DecisionAudit {
  import opened Wrappers
  import opened Models
  import opened Clipping
  import opened Admission
  import opened AdmissionSafety
  import AC = AdaptiveClipping
  import opened Dispatches

  datatype Record = Record(requestId: string, repetition: nat, dispatch: Option<real>, requested: Option<nat>,
      backend: Option<nat>)

  datatype Fact = Fact(requestId: string, repetition: nat, newLevel: nat, selectedCap: Option<int>)

  type Identity = (string, nat)

  datatype IntegrityError = IdentitiesDiffer | Uninstrumented | CapDisagrees | CapAtL0 | CapMissing

  /** Dispatched records by identity; a later record replaces an earlier one of the same identity. */
  function Dispatched(records: seq<Record>): (m: map<Identity, Record>) {
    if |records| == 0 then map[]
    else
      var r, m := records[|records| - 1], Dispatched(records[..|records| - 1]);
      if r.dispatch.Some? then m[(r.requestId, r.repetition) := r] else m
  }

  function ByIdentity(facts: seq<Fact>): (m: map<Identity, Fact>) {
    if |facts| == 0 then map[]
    else
      var f := facts[|facts| - 1];
      ByIdentity(facts[..|facts| - 1])[(f.requestId, f.repetition) := f]
  }

  /** What one decision may do to its request, or why not. */
  function CheckOne(r: Record, f: Fact): Result<(), IntegrityError> {
    if r.requested.None? || r.backend.None? then Result.Failure(Uninstrumented)
    else if !(r.backend.value == r.requested.value
              || (f.selectedCap.Some? && f.selectedCap.value < r.requested.value
                  && r.backend.value == f.selectedCap.value))
    then Result.Failure(CapDisagrees)
    else if f.newLevel == 0 && f.selectedCap.Some? then Result.Failure(CapAtL0)
    else if f.newLevel != 0 && f.selectedCap.None? then Result.Failure(CapMissing)
    else Result.Success(())
  }

  ghost predicate Reconciles(records: seq<Record>, facts: seq<Fact>) {
    var d, m := Dispatched(records), ByIdentity(facts);
    m.Keys == d.Keys && forall k :: k in m ==> CheckOne(d[k], m[k]).Success?
  }

  /** Accepts exactly the logs that reconcile, and otherwise reports a check that fails. */
  method ReconcileDecisions(records: seq<Record>, facts: seq<Fact>) returns (r: Result<(), IntegrityError>)
    ensures r.Success? <==> Reconciles(records, facts)
    ensures r.Failure? && r.error.IdentitiesDiffer? <==> ByIdentity(facts).Keys != Dispatched(records).Keys
    ensures r.Failure? && !r.error.IdentitiesDiffer? ==>
              exists k :: k in ByIdentity(facts) && CheckOne(Dispatched(records)[k], ByIdentity(facts)[k]) == r
  {
    var d, m := Dispatched(records), ByIdentity(facts);
    if m.Keys != d.Keys {
      return Result.Failure(IdentitiesDiffer);
    }
    var left := m.Keys;
    while left != {}
      invariant left <= m.Keys
      invariant forall k :: k in m && k !in left ==> CheckOne(d[k], m[k]).Success?
      decreases left
    {
      var k :| k in left;
      r := CheckOne(d[k], m[k]);
      if r.Failure? {
        return;
      }
      left := left - {k};
    }
    r := Result.Success(());
  }

  // ---------------------------------------------------------------- the books of a queue

  /** What the audit can see of a queue: who was sent, everybody's envelope, and the decision log. */
  datatype Books = Books(sent: set<Id>, envelopes: map<Id, Envelope>, decisions: seq<AdmissionDecision>)

  ghost function EnvelopesOf(q: Queue): map<Id, Envelope> {
    map id | id in q.entries.Keys + q.results.Keys ::
      if id in q.entries then q.entries[id].envelope else q.results[id].effective
  }

  ghost function BooksOf(q: Queue): Books {
    Books(Sent(q), EnvelopesOf(q), q.decisions)
  }

  /** The decision names the request, and its cap explains the request's backend limit. */
  ghost predicate Justified(d: AdmissionDecision, e: Envelope) {
    && d.requestId == e.requestId
    && (EffectiveMax(e) == e.maxOutputTokens
        || (d.decision.selectedCap.Some? && EffectiveMax(e) == d.decision.selectedCap.value < e.maxOutputTokens))
    && (d.decision.newLevel == 0 <==> d.decision.selectedCap.None?)
  }

  ghost predicate Raw(e: Envelope) {
    ValidEnvelope(e) && e.backendMax.None?
  }

  /** log[n] is the request of decision n: every request sent, once each; the others are unclipped. */
  ghost predicate Balanced(b: Books, log: seq<Id>) {
    && |log| == |b.decisions| && Distinct(log)
    && (forall id :: id in log <==> id in b.sent)
    && (forall n :: 0 <= n < |log| ==> log[n] in b.envelopes && Justified(b.decisions[n], b.envelopes[log[n]]))
    && (forall id :: id in b.envelopes && id !in b.sent ==> Raw(b.envelopes[id]))
  }

  // How each part of a step changes the books: dispatching and enqueuing do, nothing else does.

  lemma CompleteBooks(su: Setup, q: Queue, id: Id, status: Status)
    requires id in q.entries && id !in q.results
    requires q.entries[id].phase.InFlight? <==> q.entries[id].dispatch.Some?
    ensures BooksOf(Complete(su, q, id, status)) == BooksOf(q)
  {
    CompleteEffect(su, q, id, status);
    CompleteSendsNothing(su, q, id, status);
    assert EnvelopesOf(Complete(su, q, id, status)) == EnvelopesOf(q);
  }

  lemma LineBooks(q: Queue, waiting: seq<Id>, tick: nat)
    ensures BooksOf(q.(waiting := waiting, tick := tick)) == BooksOf(q)
  {
    var q' := q.(waiting := waiting, tick := tick);
    assert EnvelopesOf(q') == EnvelopesOf(q) && Sent(q') == Sent(q);
  }

  lemma AddBooks(q: Queue, e: Envelope, enqueue: real)
    requires q.nextId !in q.entries && q.nextId !in q.results
    ensures BooksOf(AddWaiting(q, e, enqueue)) == BooksOf(q).(envelopes := EnvelopesOf(q)[q.nextId := e])
  {
    var a := AddWaiting(q, e, enqueue);
    assert EnvelopesOf(a) == EnvelopesOf(q)[q.nextId := e] && Sent(a) == Sent(q);
  }

  lemma ForceBooks(q: Queue, id: Id, status: Status)
    requires id in q.entries
    ensures BooksOf(Force(q, id, status)) == BooksOf(q)
  {
    var f := Force(q, id, status);
    assert EnvelopesOf(f) == EnvelopesOf(q) && Sent(f) == Sent(q);
  }

  lemma ForceFlyingBooks(q: Queue)
    ensures BooksOf(ForceFlying(q)) == BooksOf(q)
  {
    assert Flying(ForceFlying(q).entries) == Flying(q.entries);
    assert EnvelopesOf(ForceFlying(q)) == EnvelopesOf(q);
  }

  lemma {:induction false} DrainBooks(su: Setup, q: Queue)
    requires Steady(su.clock) && Consistent(su, q)
    ensures BooksOf(DrainWaiting(su, q)) == BooksOf(q)
    decreases |q.waiting|
  {
    if |q.waiting| > 0 {
      WaitingFacts(su, q, q.waiting[0]);
      DrainOneKeeps(su, q);
      LineBooks(q, q.waiting[1..], q.tick);
      CompleteBooks(su, Behind(q), q.waiting[0], Cancelled);
      DrainBooks(su, DrainOne(su, q));
    }
  }

  /** A dispatch logs one decision, and its cap explains the limit the request is sent with. */
  lemma DispatchIsJustified(su: Setup, q: Queue, id: Id)
    requires Usable(su) && su.adaptive.Some? && AC.WellFormed(q.levels) && id in q.entries
        && Raw(q.entries[id].envelope)
    ensures var d, n := Dispatch(su, q, id), |q.decisions|;
            && |d.decisions| == n + 1 && d.decisions[..n] == q.decisions && id in d.entries
            && Justified(d.decisions[n], d.entries[id].envelope)
  {
    var decision, e := Consult(su, q).2, q.entries[id].envelope;
    CappedIsAllowed(su.adaptive.value.estimate, e, decision.selectedCap);
  }

  lemma SentBooks(q: Queue, d: Queue, id: Id)
    requires id in q.entries && id in d.entries && d.entries == q.entries[id := d.entries[id]] && d.results == q.results
    requires Sent(d) == Sent(q) + {id}
    ensures BooksOf(d) == Books(Sent(q) + {id}, EnvelopesOf(q)[id := d.entries[id].envelope], d.decisions)
  {
    assert EnvelopesOf(d) == EnvelopesOf(q)[id := d.entries[id].envelope];
  }

  lemma SentBalances(b: Books, b': Books, id: Id, log: seq<Id>)
    requires Balanced(b, log) && id !in b.sent && id in b'.envelopes
    requires |b'.decisions| == |b.decisions| + 1 && b'.decisions[..|b.decisions|] == b.decisions
    requires b'.sent == b.sent + {id} && b'.envelopes == b.envelopes[id := b'.envelopes[id]]
    requires Justified(b'.decisions[|b.decisions|], b'.envelopes[id])
    ensures Balanced(b', log + [id])
  {
    forall n | 0 <= n < |log| ensures log[n] != id && b'.decisions[n] == b.decisions[n] {
      assert log[n] in log && b'.decisions[n] == b'.decisions[..|b.decisions|][n];
    }
  }

  lemma AdmitOneBalances(su: Setup, q: Queue, log: seq<Id>) returns (log': seq<Id>)
    requires Steady(su.clock) && Usable(su) && su.adaptive.Some? && Consistent(su, q) && CanAdmit(su, q)
    requires Balanced(BooksOf(q), log)
    ensures Balanced(BooksOf(AdmitOne(su, q)), log')
  {
    var id, popped := q.waiting[Selected(su, q)], Popped(su, q);
    assert id in q.waiting && id !in q.results && id !in Flying(q.entries);
    assert EntryOk(q.entries[id], su.clock(q.tick));
    LineBooks(q, popped.waiting, popped.tick);
    if Overdue(su, popped, id) {
      CompleteBooks(su, popped, id, Timeout);
      log' := log;
    } else {
      assert Raw(EnvelopesOf(q)[id]);
      var d := Dispatch(su, popped, id);
      DispatchIsJustified(su, popped, id);
      DispatchEffect(su, popped, id);
      DispatchSendsOne(su, popped, id);
      SentBooks(popped, d, id);
      SentBalances(BooksOf(q), BooksOf(d), id, log);
      log' := log + [id];
    }
  }

  lemma {:induction false} AdmitBalances(su: Setup, q: Queue, log: seq<Id>) returns (log': seq<Id>)
    requires Steady(su.clock) && Usable(su) && su.adaptive.Some? && Consistent(su, q) && Balanced(BooksOf(q), log)
    ensures Balanced(BooksOf(Admit(su, q)), log')
    decreases |q.waiting|
  {
    log' := log;
    if CanAdmit(su, q) {
      AdmitOneIsSound(su, q);
      AdmitOneKeeps(su, q);
      log' := AdmitOneBalances(su, q, log);
      log' := AdmitBalances(su, AdmitOne(su, q), log');
    }
  }

  lemma AddBalances(b: Books, id: Id, e: Envelope, log: seq<Id>)
    requires Balanced(b, log) && id !in b.envelopes && Raw(e)
    ensures Balanced(b.(envelopes := b.envelopes[id := e]), log)
  {
  }

  lemma SubmitBalances(su: Setup, q: Queue, e: Envelope, enqueue: real, log: seq<Id>) returns (log': seq<Id>)
    requires ValidSetup(su) && su.adaptive.Some? && Inv(su, q) && Balanced(BooksOf(q), log) && !Full(su, q)
    requires q.tick > 0 && enqueue <= su.clock(q.tick - 1) && Raw(e)
    ensures Consistent(su, AddWaiting(q, e, enqueue)) && Balanced(BooksOf(Admit(su, AddWaiting(q, e, enqueue))), log')
  {
    AddedIsConsistent(su, q, e, enqueue);
    assert q.nextId !in q.entries && q.nextId !in q.results;
    AddBooks(q, e, enqueue);
    AddBalances(BooksOf(q), q.nextId, e, log);
    log' := AdmitBalances(su, AddWaiting(q, e, enqueue), log);
  }

  lemma FinishBalances(su: Setup, q: Queue, id: Id, outcome: Status, log: seq<Id>) returns (log': seq<Id>)
    requires ValidSetup(su) && su.adaptive.Some? && Inv(su, q) && Balanced(BooksOf(q), log)
    requires Enabled(su, q, BackendFinish(id, outcome))
    ensures Consistent(su, Finish(su, q, id, outcome)) && Balanced(BooksOf(Admit(su, Finish(su, q, id, outcome))), log')
  {
    FinishedIsConsistent(su, q, id, outcome);
    FinishBooks(su, q, id, outcome);
    log' := AdmitBalances(su, Finish(su, q, id, outcome), log);
  }

  lemma FinishBooks(su: Setup, q: Queue, id: Id, outcome: Status)
    requires Inv(su, q) && Enabled(su, q, BackendFinish(id, outcome))
    ensures BooksOf(Finish(su, q, id, outcome)) == BooksOf(q)
  {
    FlyingFacts(su, q, id);
    LineBooks(q, q.waiting, Decided(q, id).tick);
    CompleteBooks(su, Decided(q, id), id, FinalStatus(su, q, id, outcome));
  }

  lemma StopBooks(su: Setup, q: Queue, id: Id, status: Status)
    requires Inv(su, q)
    ensures id in q.entries ==>
              BooksOf(if q.entries[id].phase.Waiting? then DropWaiting(su, q, id, status) else Force(q, id, status))
                  == BooksOf(q)
  {
    if id in q.entries {
      assert EntryOk(q.entries[id], su.clock(q.tick));
      if q.entries[id].phase.Waiting? {
        LineBooks(q, Without(q.waiting, id), q.tick);
        CompleteBooks(su, LeaveLine(q, id), id, status);
      } else {
        ForceBooks(q, id, status);
      }
    }
  }

  lemma FlagBooks(q: Queue, started: bool, closing: bool, closed: bool)
    ensures BooksOf(q.(started := started, closing := closing, closed := closed)) == BooksOf(q)
  {
    var q' := q.(started := started, closing := closing, closed := closed);
    assert EnvelopesOf(q') == EnvelopesOf(q) && Sent(q') == Sent(q);
  }

  lemma BeginCloseBooks(su: Setup, q: Queue)
    requires ValidSetup(su) && Inv(su, q)
    ensures BooksOf(Apply(su, q, BeginClose)) == BooksOf(q)
  {
    if !q.closed && q.started {
      FlagBooks(q, q.started, true, q.closed);
      ClosingIsConsistent(su, q);
      DrainBooks(su, Closing(q));
      ForceFlyingBooks(DrainWaiting(su, Closing(q)));
    } else {
      FlagBooks(q, q.started, q.closing, true);
    }
  }

  /** Every step keeps the decision log matched, one to one, with the requests sent. */
  lemma StepBalances(su: Setup, q: Queue, step: Step, log: seq<Id>) returns (log': seq<Id>)
    requires ValidSetup(su) && su.adaptive.Some? && Inv(su, q) && Enabled(su, q, step) && Balanced(BooksOf(q), log)
    requires step.Submit? ==> step.envelope.backendMax.None?
    ensures Balanced(BooksOf(Apply(su, q, step)), log')
  {
    log' := log;
    match step
    case Start => FlagBooks(q, true, q.closing, q.closed);
    case Read => LineBooks(q, q.waiting, q.tick + 1);
    case Submit(e, enqueue) =>
      LineBooks(q, q.waiting, q.tick + 1);
      if Accepting(q) && !Full(su, q) { log' := SubmitBalances(su, q, e, enqueue, log); }
    case BackendFinish(id, outcome) => log' := FinishBalances(su, q, id, outcome, log);
    case TimerFire(id) => StopBooks(su, q, id, Timeout);
    case SubmitterCancel(id) => StopBooks(su, q, id, Cancelled);
    case BeginClose => BeginCloseBooks(su, q);
    case EndClose(aborted) => FlagBooks(q, q.started, false, true);
  }

  lemma {:induction false} RunBalances(su: Setup, states: seq<Queue>, steps: seq<Step>, k: nat) returns (log: seq<Id>)
    requires IsRun(su, states, steps) && su.adaptive.Some? && k <= |steps| && states[0] == EMPTY
    requires forall i :: 0 <= i < |steps| && steps[i].Submit? ==> steps[i].envelope.backendMax.None?
    ensures Balanced(BooksOf(states[k]), log)
  {
    if k == 0 {
      log := [];
    } else {
      log := RunBalances(su, states, steps, k - 1);
      QueueIsSafe(su, states, steps, k - 1);
      assert StepsAt(su, states, steps, k - 1);
      log := StepBalances(su, states[k - 1], steps[k - 1], log);
    }
  }

  // ---------------------------------------------------------------- the audit accepts it

  function RecordFor(r: AdmissionResult, repetition: nat): Record {
    Record(r.effective.requestId, repetition, r.dispatch, Some(r.effective.maxOutputTokens),
        Some(EffectiveMax(r.effective)))
  }

  function FactFor(d: AdmissionDecision, repetition: nat): Fact {
    Fact(d.requestId, repetition, d.decision.newLevel, d.decision.selectedCap)
  }

  function Facts(decisions: seq<AdmissionDecision>, repetition: nat): (facts: seq<Fact>)
    ensures |facts| == |decisions|
  {
    seq(|decisions|, n requires 0 <= n < |decisions| => FactFor(decisions[n], repetition))
  }

  /** One record per finished request; records of requests never dispatched may be added freely. */
  ghost predicate RecordsOf(q: Queue, repetition: nat, records: seq<Record>) {
    && (forall id :: id in q.results ==> RecordFor(q.results[id], repetition) in records)
    && (forall r :: r in records && r.dispatch.Some? ==>
        exists id :: id in q.results && r == RecordFor(q.results[id], repetition))
  }

  ghost predicate UniqueIds(q: Queue) {
    forall a, b :: a in q.results && b in q.results && a != b ==>
                     q.results[a].effective.requestId != q.results[b].effective.requestId
  }

  lemma {:induction false} DispatchedHas(records: seq<Record>, k: Identity)
    ensures k in Dispatched(records) ==>
              Dispatched(records)[k] in records && Dispatched(records)[k].dispatch.Some?
              && k == (Dispatched(records)[k].requestId, Dispatched(records)[k].repetition)
    ensures forall r :: r in records && r.dispatch.Some? && k == (r.requestId, r.repetition) ==>
        k in Dispatched(records)
  {
    if |records| > 0 {
      var n := |records| - 1;
      assert records == records[..n] + [records[n]];
      DispatchedHas(records[..n], k);
    }
  }

  lemma {:induction false} ByIdentityHas(facts: seq<Fact>, k: Identity)
    ensures k in ByIdentity(facts) ==>
              ByIdentity(facts)[k] in facts && k == (ByIdentity(facts)[k].requestId, ByIdentity(facts)[k].repetition)
    ensures forall f :: f in facts && k == (f.requestId, f.repetition) ==> k in ByIdentity(facts)
  {
    if |facts| > 0 {
      var n := |facts| - 1;
      assert facts == facts[..n] + [facts[n]];
      ByIdentityHas(facts[..n], k);
    }
  }

  /** In a drained queue, the fact and the record of one identity belong to the same request and agree. */
  lemma FactMeetsRecord(q: Queue, log: seq<Id>, repetition: nat, n: nat, r: Record)
    requires Balanced(BooksOf(q), log) && q.entries == map[] && UniqueIds(q) && n < |log|
    requires r.dispatch.Some? && exists id :: id in q.results && r == RecordFor(q.results[id], repetition)
    requires r.requestId == q.decisions[n].requestId
    ensures CheckOne(r, FactFor(q.decisions[n], repetition)).Success?
  {
    var id :| id in q.results && r == RecordFor(q.results[id], repetition);
    assert log[n] in EnvelopesOf(q) && Justified(q.decisions[n], EnvelopesOf(q)[log[n]]);
    assert id == log[n];
  }

  /** Every dispatched record has its decision, and every decision its record. */
  lemma IdentitiesAgree(q: Queue, log: seq<Id>, repetition: nat, records: seq<Record>, k: Identity)
    requires Balanced(BooksOf(q), log) && q.entries == map[] && RecordsOf(q, repetition, records)
    ensures k in ByIdentity(Facts(q.decisions, repetition)) <==> k in Dispatched(records)
  {
    var facts := Facts(q.decisions, repetition);
    DispatchedHas(records, k);
    ByIdentityHas(facts, k);
    if k in Dispatched(records) {
      var r := Dispatched(records)[k];
      var id :| id in q.results && r == RecordFor(q.results[id], repetition);
      assert id in Sent(q);
      var n :| 0 <= n < |log| && log[n] == id;
      assert Justified(q.decisions[n], EnvelopesOf(q)[id]);
      assert facts[n] in facts;
    }
    if k in ByIdentity(facts) {
      var n :| 0 <= n < |facts| && facts[n] == ByIdentity(facts)[k];
      var id := log[n];
      assert id in log && id in Sent(q) && Justified(q.decisions[n], EnvelopesOf(q)[id]);
      assert RecordFor(q.results[id], repetition) in records;
    }
  }

  /**
   End to end: the log of any run of the queue with adaptive clipping, drained, with unique request ids
   and no pre-queue clip, is accepted by the audit.
   */
  lemma QueueLogsReconcile(su: Setup, states: seq<Queue>, steps: seq<Step>, repetition: nat, records: seq<Record>)
    requires IsRun(su, states, steps) && su.adaptive.Some? && states[0] == EMPTY
    requires forall i :: 0 <= i < |steps| && steps[i].Submit? ==> steps[i].envelope.backendMax.None?
    requires var q := states[|steps|]; q.entries == map[] && UniqueIds(q) && RecordsOf(q, repetition, records)
    ensures Reconciles(records, Facts(states[|steps|].decisions, repetition))
  {
    var q := states[|steps|];
    var log := RunBalances(su, states, steps, |steps|);
    var facts := Facts(q.decisions, repetition);
    var d, m := Dispatched(records), ByIdentity(facts);
    forall k ensures k in m <==> k in d {
      IdentitiesAgree(q, log, repetition, records, k);
    }
    forall k | k in m ensures CheckOne(d[k], m[k]).Success? {
      IdentitiesAgree(q, log, repetition, records, k);
      DispatchedHas(records, k);
      ByIdentityHas(facts, k);
      var n :| 0 <= n < |facts| && facts[n] == m[k];
      FactMeetsRecord(q, log, repetition, n, d[k]);
    }
    assert m.Keys == d.Keys;
  }
}
