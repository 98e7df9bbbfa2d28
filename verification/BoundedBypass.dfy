/**
 No starvation under the SLO-aware policy: once a request has aged, only requests that came no later can
 be dispatched before it, and fewer than queue_capacity of them.
*/
module BoundedBypass {
  import opened Models
  import opened Policies
  import opened Admission
  import opened AdmissionSafety
  import opened Dispatches

  /** r waits, and at every reading from now on it is at the hard ceiling. */
  ghost predicate AgedWaiting(su: Setup, q: Queue, r: Id) {
    && su.policy.SloAware? && r in q.entries && r in q.waiting
    && Aged(su.policy.slo, q.entries[r].envelope, su.clock(q.tick))
  }

  /** The waiting requests that may still be selected before r: those that came no later. */
  ghost function Ahead(q: Queue, r: Envelope): set<Id> {
    set id | id in q.entries && id in q.waiting && !Earlier(r, q.entries[id].envelope)
  }

  /**
   From q to q', with r waiting in both: whatever was sent came no later than r, was waiting, and no
   longer stands ahead of r; nobody new stands ahead.
   */
  ghost predicate SendsOnlyAhead(q: Queue, q': Queue, r: Id)
    requires r in q.entries
  {
    var e := q.entries[r].envelope;
    && Sent(q) <= Sent(q')
    && Sent(q') - Sent(q) <= Ahead(q, e) - {r}
    && Ahead(q', e) <= Ahead(q, e) - (Sent(q') - Sent(q))
    && r in q'.entries && q'.entries[r].envelope == e
  }

  lemma SendsCompose(a: Queue, b: Queue, c: Queue, r: Id)
    requires r in a.entries && r in b.entries && SendsOnlyAhead(a, b, r) && SendsOnlyAhead(b, c, r)
    ensures SendsOnlyAhead(a, c, r)
  {
    var e := a.entries[r].envelope;
    SetsCompose(Sent(a), Sent(b), Sent(c), Ahead(a, e), Ahead(b, e), Ahead(c, e), r);
  }

  lemma SetsCompose(sa: set<Id>, sb: set<Id>, sc: set<Id>, ha: set<Id>, hb: set<Id>, hc: set<Id>, r: Id)
    requires sa <= sb <= sc
    requires sb - sa <= ha - {r} && hb <= ha - (sb - sa)
    requires sc - sb <= hb - {r} && hc <= hb - (sc - sb)
    ensures sc - sa <= ha - {r} && hc <= ha - (sc - sa)
  {
    assert sc - sa == (sc - sb) + (sb - sa);
  }

  /** The policy never picks a later request while r is aged. */
  lemma PickIsAhead(su: Setup, q: Queue, r: Id)
    requires Steady(su.clock) && Usable(su) && Consistent(su, q) && AgedWaiting(su, q, r)
    ensures q.waiting[Selected(su, q)] in Ahead(q, q.entries[r].envelope)
  {
    var j :| 0 <= j < |q.waiting| && q.waiting[j] == r;
    var es, now := Envelopes(q), su.clock(q.tick);
    assert es[j] == q.entries[r].envelope;
    AgedComesFirst(su.policy.slo, es, now, j);
  }

  /** Moving a request ahead of r sends nothing that is not ahead of r. */
  lemma MovedIsAhead(su: Setup, q: Queue, q': Queue, id: Id, r: Id)
    requires Steady(su.clock) && Moved(q, q', id) && AgedWaiting(su, q, r) && r != id
    requires id in Ahead(q, q.entries[r].envelope)
    ensures AgedWaiting(su, q', r) && SendsOnlyAhead(q, q', r)
  {
    assert Ahead(q', q.entries[r].envelope) == Ahead(q, q.entries[r].envelope) - {id};
    assert su.clock(q.tick) <= su.clock(q'.tick);
  }

  /** One admission with r aged and still waiting afterwards sends at most its pick. */
  lemma AdmitOneSendsAhead(su: Setup, q: Queue, r: Id)
    requires Steady(su.clock) && Usable(su) && Consistent(su, q) && CanAdmit(su, q) && AgedWaiting(su, q, r)
    requires r in AdmitOne(su, q).waiting
    ensures AgedWaiting(su, AdmitOne(su, q), r) && SendsOnlyAhead(q, AdmitOne(su, q), r)
  {
    PickIsAhead(su, q, r);
    AdmitOneMoves(su, q);
    MovedIsAhead(su, q, AdmitOne(su, q), q.waiting[Selected(su, q)], r);
  }

  lemma {:induction false} AdmitSendsAhead(su: Setup, q: Queue, r: Id)
    requires Steady(su.clock) && Usable(su) && Consistent(su, q) && AgedWaiting(su, q, r)
    requires r in Admit(su, q).waiting
    ensures Consistent(su, Admit(su, q)) && AgedWaiting(su, Admit(su, q), r)
    ensures SendsOnlyAhead(q, Admit(su, q), r)
    decreases |q.waiting|
  {
    if CanAdmit(su, q) {
      var q' := AdmitOne(su, q);
      AdmitOneIsSound(su, q);
      AdmitOneKeeps(su, q);
      AdmitShrinks(su, q', r);
      AdmitOneSendsAhead(su, q, r);
      AdmitSendsAhead(su, q', r);
      SendsCompose(q, q', Admit(su, q'), r);
    }
  }

  /** A pass only removes requests from the waiting line. */
  lemma {:induction false} AdmitShrinks(su: Setup, q: Queue, r: Id)
    requires Steady(su.clock) && Usable(su) && Consistent(su, q) && r in Admit(su, q).waiting
    ensures r in q.waiting
    decreases |q.waiting|
  {
    if CanAdmit(su, q) {
      var q', popped, id := AdmitOne(su, q), Popped(su, q), q.waiting[Selected(su, q)];
      AdmitOneIsSound(su, q);
      AdmitOneKeeps(su, q);
      AdmitShrinks(su, q', r);
      RemovedIds(q.waiting, Selected(su, q));
      if !Overdue(su, popped, id) {
        DispatchEffect(su, popped, id);
      }
    }
  }

  // ---------------------------------------------------------------- steps and runs

  /** The queue a step acts on once an accepted submission stands in line. */
  ghost function Lined(su: Setup, q: Queue, step: Step): Queue {
    if step.Submit? && Accepting(q) && !Full(su, q) then AddWaiting(q, step.envelope, step.enqueue) else q
  }

  lemma AddedKeepsAhead(q: Queue, e: Envelope, enqueue: real, re: Envelope)
    requires q.nextId !in q.entries && q.nextId !in q.waiting
    ensures Sent(AddWaiting(q, e, enqueue)) == Sent(q)
    ensures Earlier(re, e) ==> Ahead(AddWaiting(q, e, enqueue), re) == Ahead(q, re)
  {
    var a := AddWaiting(q, e, enqueue);
    assert Sent(a) == Sent(q);
    if Earlier(re, e) {
      assert Ahead(a, re) == Ahead(q, re);
    }
  }

  lemma NewcomerIsNew(su: Setup, q: Queue)
    requires Consistent(su, q)
    ensures q.nextId !in q.entries && q.nextId !in q.waiting
  {
    assert q.nextId !in q.entries;
  }

  /** Standing in line sends nothing, leaves r where it is and puts at most the newcomer ahead of it. */
  lemma LinedKeeps(su: Setup, q: Queue, step: Step, r: Id)
    requires Inv(su, q) && AgedWaiting(su, q, r)
    ensures var l := Lined(su, q, step);
            && Sent(l) == Sent(q) && AgedWaiting(su, l, r) && l.entries[r] == q.entries[r]
            && (step.Submit? && Earlier(q.entries[r].envelope, step.envelope) ==>
                  Ahead(l, q.entries[r].envelope) == Ahead(q, q.entries[r].envelope))
  {
    NewcomerIsNew(su, q);
    if step.Submit? {
      AddedKeepsAhead(q, step.envelope, step.enqueue, q.entries[r].envelope);
    }
  }

  lemma SubmitSendsAhead(su: Setup, q: Queue, e: Envelope, enqueue: real, r: Id)
    requires ValidSetup(su) && Inv(su, q) && AgedWaiting(su, q, r) && Accepting(q) && !Full(su, q)
    requires q.tick > 0 && enqueue <= su.clock(q.tick - 1)
    requires r in Admit(su, AddWaiting(q, e, enqueue)).waiting
    ensures var a := AddWaiting(q, e, enqueue);
            r in a.entries && AgedWaiting(su, Admit(su, a), r) && SendsOnlyAhead(a, Admit(su, a), r)
  {
    AddedIsConsistent(su, q, e, enqueue);
    LinedKeeps(su, q, Submit(e, enqueue), r);
    AdmitSendsAhead(su, AddWaiting(q, e, enqueue), r);
  }

  lemma FewerAhead(q: Queue, q': Queue, e: Envelope)
    requires forall x :: x in q'.waiting ==>
        x in q.waiting && x in q.entries && x in q'.entries && q'.entries[x] == q.entries[x]
    ensures Ahead(q', e) <= Ahead(q, e)
  {
  }

  lemma SameAhead(q: Queue, q': Queue, e: Envelope)
    requires q'.waiting == q.waiting
    requires forall x :: x in q.waiting ==> x in q.entries && x in q'.entries && q'.entries[x] == q.entries[x]
    ensures Ahead(q', e) == Ahead(q, e)
  {
  }

  lemma FinishSendsNothing(su: Setup, q: Queue, id: Id, outcome: Status, r: Id)
    requires ValidSetup(su) && Inv(su, q) && AgedWaiting(su, q, r) && Enabled(su, q, BackendFinish(id, outcome))
    ensures var f := Finish(su, q, id, outcome); AgedWaiting(su, f, r) && SendsOnlyAhead(q, f, r)
  {
    var f := Finish(su, q, id, outcome);
    FlyingFacts(su, q, id);
    FinishedParts(su, q, id, outcome);
    SameAhead(q, f, q.entries[r].envelope);
    assert su.clock(q.tick) <= su.clock(f.tick);
  }

  lemma FinishSendsAhead(su: Setup, q: Queue, id: Id, outcome: Status, r: Id)
    requires ValidSetup(su) && Inv(su, q) && AgedWaiting(su, q, r) && Enabled(su, q, BackendFinish(id, outcome))
    requires r in Admit(su, Finish(su, q, id, outcome)).waiting
    ensures var q' := Admit(su, Finish(su, q, id, outcome)); AgedWaiting(su, q', r) && SendsOnlyAhead(q, q', r)
  {
    var f := Finish(su, q, id, outcome);
    FinishedIsConsistent(su, q, id, outcome);
    FinishSendsNothing(su, q, id, outcome, r);
    AdmitSendsAhead(su, f, r);
    SendsCompose(q, f, Admit(su, f), r);
  }

  lemma DropSendsAhead(su: Setup, q: Queue, id: Id, status: Status, r: Id)
    requires ValidSetup(su) && Inv(su, q) && AgedWaiting(su, q, r) && id in q.entries && q.entries[id].phase.Waiting?
        && id != r
    ensures var q' := DropWaiting(su, q, id, status); AgedWaiting(su, q', r) && SendsOnlyAhead(q, q', r)
  {
    var without, d := LeaveLine(q, id), DropWaiting(su, q, id, status);
    WithoutRemoves(q.waiting, id);
    WaitingFacts(su, q, id);
    CompleteSendsNothing(su, without, id, status);
    CompleteEffect(su, without, id, status);
    assert Sent(without) == Sent(q);
    FewerAhead(q, d, q.entries[r].envelope);
    assert su.clock(q.tick) <= su.clock(q.tick + 1);
  }

  lemma ForceSendsNothing(su: Setup, q: Queue, id: Id, status: Status, r: Id)
    requires Inv(su, q) && AgedWaiting(su, q, r) && id in q.entries && q.entries[id].phase.InFlight?
    ensures AgedWaiting(su, Force(q, id, status), r) && SendsOnlyAhead(q, Force(q, id, status), r)
  {
    var f := Force(q, id, status);
    FlyingAfterUpdate(q.entries, id, f.entries[id]);
    assert Flying(f.entries) == Flying(q.entries) && Sent(f) == Sent(q);
    assert id !in q.waiting && id != r;
    assert Ahead(f, q.entries[r].envelope) == Ahead(q, q.entries[r].envelope);
  }

  /**
   While r is aged and keeps waiting, no step, whatever it submits, sends a request that came later than r: what is
   sent stood ahead of r once the submission was in line.
  */
  lemma StepSendsAhead(su: Setup, q: Queue, step: Step, r: Id)
    requires ValidSetup(su) && Inv(su, q) && Enabled(su, q, step) && AgedWaiting(su, q, r)
    requires r in Apply(su, q, step).waiting
    ensures var l := Lined(su, q, step);
            && Sent(l) == Sent(q) && r in l.entries && l.entries[r] == q.entries[r]
            && AgedWaiting(su, Apply(su, q, step), r) && SendsOnlyAhead(l, Apply(su, q, step), r)
  {
    assert su.clock(q.tick) <= su.clock(q.tick + 1);
    LinedKeeps(su, q, step, r);
    match step
    case Submit(e, enqueue) =>
      if Accepting(q) && !Full(su, q) { SubmitSendsAhead(su, q, e, enqueue, r); }
    case BackendFinish(id, outcome) => FinishSendsAhead(su, q, id, outcome, r);
    case TimerFire(id) => StopSendsAhead(su, q, id, Timeout, r);
    case SubmitterCancel(id) => StopSendsAhead(su, q, id, Cancelled, r);
    case _ =>
  }

  /** When the submission came later than r, nobody new stands ahead of r. */
  lemma LaterSubmitSendsAhead(su: Setup, q: Queue, step: Step, r: Id)
    requires ValidSetup(su) && Inv(su, q) && Enabled(su, q, step) && AgedWaiting(su, q, r)
    requires r in Apply(su, q, step).waiting
    requires step.Submit? ==> Earlier(q.entries[r].envelope, step.envelope)
    ensures AgedWaiting(su, Apply(su, q, step), r) && SendsOnlyAhead(q, Apply(su, q, step), r)
  {
    StepSendsAhead(su, q, step, r);
    LinedKeeps(su, q, step, r);
  }

  /** The step that sends a waiting request sends nothing beside it. */
  lemma SentAlone(su: Setup, q: Queue, step: Step, r: Id)
    requires ValidSetup(su) && Inv(su, q) && Enabled(su, q, step) && r in q.waiting
    requires r in Sent(Apply(su, q, step))
    ensures Sent(Apply(su, q, step)) - Sent(q) == {r}
  {
    WaitingFacts(su, q, r);
    StepIsExact(su, q, step);
  }

  lemma StopSendsAhead(su: Setup, q: Queue, id: Id, status: Status, r: Id)
    requires ValidSetup(su) && Inv(su, q) && AgedWaiting(su, q, r)
    requires id in q.entries && q.entries[id].phase.Waiting? ==> r in DropWaiting(su, q, id, status).waiting
    ensures id in q.entries ==>
              var q' := if q.entries[id].phase.Waiting? then DropWaiting(su, q, id, status) else Force(q, id, status);
              AgedWaiting(su, q', r) && SendsOnlyAhead(q, q', r)
  {
    if id in q.entries {
      if q.entries[id].phase.Waiting? {
        WithoutRemoves(q.waiting, id);
        assert DropWaiting(su, q, id, status).waiting == Without(q.waiting, id);
        DropSendsAhead(su, q, id, status, r);
      } else {
        ForceSendsNothing(su, q, id, status, r);
      }
    }
  }

  /** What the step sends came no later than e, counting the request the step itself submits. */
  ghost predicate SendsNoLater(su: Setup, q: Queue, step: Step, q': Queue, e: Envelope) {
    var l := Lined(su, q, step);
    forall id :: id in Sent(q') && id !in Sent(q) ==> id in l.entries && !Earlier(e, l.entries[id].envelope)
  }

  lemma StepSendsNoLater(su: Setup, q: Queue, step: Step, r: Id, q': Queue)
    requires ValidSetup(su) && Inv(su, q) && Enabled(su, q, step) && AgedWaiting(su, q, r)
    requires q' == Apply(su, q, step) && r in q'.waiting
    ensures AgedWaiting(su, q', r) && q'.entries[r].envelope == q.entries[r].envelope
    ensures SendsNoLater(su, q, step, q', q.entries[r].envelope)
  {
    StepSendsAhead(su, q, step, r);
    SentStoodAhead(Lined(su, q, step), q', r);
  }

  lemma SentStoodAhead(l: Queue, q': Queue, r: Id)
    requires r in l.entries && SendsOnlyAhead(l, q', r)
    ensures forall id :: id in Sent(q') && id !in Sent(l) ==>
              id in l.entries && !Earlier(l.entries[r].envelope, l.entries[id].envelope)
  {
    forall id | id in Sent(q') && id !in Sent(l)
      ensures id in l.entries && !Earlier(l.entries[r].envelope, l.entries[id].envelope)
    {
      assert id in Sent(q') - Sent(l);
    }
  }

  /** r waits after each of the steps a..n-1. */
  ghost predicate StaysInLine(states: seq<Queue>, a: nat, n: nat, r: Id)
    requires n < |states|
  {
    forall k :: a < k <= n ==> r in states[k].waiting
  }

  /** r, with envelope e, waits and is aged. */
  ghost predicate AgedAs(su: Setup, q: Queue, r: Id, e: Envelope) {
    AgedWaiting(su, q, r) && q.entries[r].envelope == e
  }

  lemma {:induction false} StaysAged(su: Setup, states: seq<Queue>, steps: seq<Step>, a: nat, n: nat, r: Id,
      e: Envelope)
    requires IsRun(su, states, steps) && a <= n <= |steps| && AgedAs(su, states[a], r, e)
    requires forall k :: a <= k <= n ==> Inv(su, states[k])
    requires StaysInLine(states, a, n, r)
    ensures forall k :: a <= k <= n ==> AgedAs(su, states[k], r, e)
    decreases n - a
  {
    if a < n {
      StaysAged(su, states, steps, a, n - 1, r, e);
      OneStepOvertakes(su, states, steps, a, n - 1, r, e);
    }
  }

  /**
   In every run: from the moment r has aged and as long as it waits, whatever is submitted meanwhile, it stays aged
   and only requests that came no later than r are dispatched.
  */
  lemma OnlyEarlierOvertake(su: Setup, states: seq<Queue>, steps: seq<Step>, a: nat, n: nat, r: Id, e: Envelope)
    requires IsRun(su, states, steps) && a <= n <= |steps| && Inv(su, states[a]) && AgedAs(su, states[a], r, e)
    requires StaysInLine(states, a, n, r)
    ensures forall k :: a <= k <= n ==> AgedAs(su, states[k], r, e)
    ensures forall k :: a <= k < n ==> SendsNoLater(su, states[k], steps[k], states[k + 1], e)
  {
    InvAlways(su, states, steps, a, n);
    StaysAged(su, states, steps, a, n, r, e);
    forall k | a <= k < n ensures SendsNoLater(su, states[k], steps[k], states[k + 1], e) {
      OneStepOvertakes(su, states, steps, a, k, r, e);
    }
  }

  lemma OneStepOvertakes(su: Setup, states: seq<Queue>, steps: seq<Step>, a: nat, k: nat, r: Id, e: Envelope)
    requires IsRun(su, states, steps) && a <= k < |steps| && r in states[k + 1].waiting
    requires forall i :: a <= i <= k ==> Inv(su, states[i])
    requires forall i :: a <= i <= k ==> AgedAs(su, states[i], r, e)
    ensures forall i :: a <= i <= k + 1 ==> AgedAs(su, states[i], r, e)
    ensures SendsNoLater(su, states[k], steps[k], states[k + 1], e)
  {
    assert StepsAt(su, states, steps, k) && Inv(su, states[k]) && AgedAs(su, states[k], r, e);
    StepSendsNoLater(su, states[k], steps[k], r, states[k + 1]);
    assert AgedAs(su, states[k + 1], r, e);
  }

  /** r waits throughout updates a..n, and everything submitted meanwhile came later than r. */
  ghost predicate KeepsWaiting(states: seq<Queue>, steps: seq<Step>, a: nat, n: nat, r: Id, e: Envelope)
    requires |states| == |steps| + 1 && n <= |steps|
  {
    forall k :: a <= k < n ==> KeepsWaitingAt(states, steps, k, r, e)
  }

  ghost predicate KeepsWaitingAt(states: seq<Queue>, steps: seq<Step>, k: nat, r: Id, e: Envelope)
    requires |states| == |steps| + 1 && k < |steps|
  {
    r in states[k + 1].waiting && (steps[k].Submit? ==> Earlier(e, steps[k].envelope))
  }

  lemma {:induction false} ComposeRun(states: seq<Queue>, a: nat, n: nat, r: Id)
    requires a <= n < |states| && forall k :: a <= k <= n ==> r in states[k].entries
    requires forall k :: a <= k < n ==> SendsOnlyAhead(states[k], states[k + 1], r)
    ensures SendsOnlyAhead(states[a], states[n], r)
    decreases n - a
  {
    if a < n {
      var m := n - 1;
      ComposeRun(states, a, m, r);
      assert SendsOnlyAhead(states[m], states[m + 1], r);
      SendsCompose(states[a], states[m], states[n], r);
    }
  }

  /** With only later submissions, everything sent while r stays aged stood ahead of it from the start. */
  lemma RunSendsAhead(su: Setup, states: seq<Queue>, steps: seq<Step>, a: nat, n: nat, r: Id, e: Envelope)
    requires IsRun(su, states, steps) && a <= n <= |steps| && Inv(su, states[a]) && AgedAs(su, states[a], r, e)
    requires KeepsWaiting(states, steps, a, n, r, e)
    ensures SendsOnlyAhead(states[a], states[n], r)
  {
    InvAlways(su, states, steps, a, n);
    forall k | a < k <= n ensures r in states[k].waiting {
      assert KeepsWaitingAt(states, steps, k - 1, r, e);
    }
    StaysAged(su, states, steps, a, n, r, e);
    forall k | a <= k <= n ensures r in states[k].entries {
      assert AgedAs(su, states[k], r, e);
    }
    forall k | a <= k < n ensures SendsOnlyAhead(states[k], states[k + 1], r) {
      assert AgedAs(su, states[k], r, e) && Inv(su, states[k]) && KeepsWaitingAt(states, steps, k, r, e);
      OneStepSendsAhead(su, states, steps, k, r);
    }
    ComposeRun(states, a, n, r);
  }

  lemma OneStepSendsAhead(su: Setup, states: seq<Queue>, steps: seq<Step>, k: nat, r: Id)
    requires IsRun(su, states, steps) && k < |steps| && Inv(su, states[k]) && AgedWaiting(su, states[k], r)
    requires KeepsWaitingAt(states, steps, k, r, states[k].entries[r].envelope)
    ensures AgedWaiting(su, states[k + 1], r)
    ensures SendsOnlyAhead(states[k], states[k + 1], r)
  {
    assert StepsAt(su, states, steps, k);
    LaterSubmitSendsAhead(su, states[k], steps[k], r);
  }

  lemma SubsetCount(a: set<Id>, b: set<Id>)
    requires a <= b
    ensures |a| <= |b| && |b - a| == |b| - |a|
  {
    assert b == a + (b - a);
  }

  /**
   Bounded bypass: from the moment r has aged, as long as it waits and everything submitted later came
   later, every request dispatched came no later than r; each dispatch lowers the number of requests
   ahead, and fewer than queue_capacity dispatches happen in all.
   */
  lemma BypassIsBounded(su: Setup, states: seq<Queue>, steps: seq<Step>, a: nat, n: nat, r: Id)
    requires IsRun(su, states, steps) && a <= n <= |steps| && Inv(su, states[a]) && AgedWaiting(su, states[a], r)
    requires KeepsWaiting(states, steps, a, n, r, states[a].entries[r].envelope)
    ensures var e, sent := states[a].entries[r].envelope, Sent(states[n]) - Sent(states[a]);
            && (forall id :: id in sent ==> id in states[a].entries && !Earlier(e, states[a].entries[id].envelope))
            && |Ahead(states[n], e)| + |sent| <= |Ahead(states[a], e)|
            && |sent| < su.capacity
  {
    RunSendsAhead(su, states, steps, a, n, r, states[a].entries[r].envelope);
    var q, e, sent := states[a], states[a].entries[r].envelope, Sent(states[n]) - Sent(states[a]);
    SubsetCount(sent, Ahead(q, e));
    SubsetCount(Ahead(states[n], e), Ahead(q, e) - sent);
    DistinctCount(q.waiting);
    assert Ahead(q, e) <= IdSet(q.waiting) && r in IdSet(q.waiting);
    SubsetCount(sent, IdSet(q.waiting) - {r});
  }
}
