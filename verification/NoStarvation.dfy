/**
 Progress of an aged request: every finishing backend makes way for it, so that it leaves the line before many requests
 have been completed.
*/
module NoStarvation {
  import opened Models
  import opened Policies
  import opened Admission
  import opened AdmissionSafety
  import opened BoundedBypass
  import opened Dispatches

  /** A pass with a free slot takes at least one request from ahead of r. */
  lemma PassTakesOne(su: Setup, q: Queue, r: Id)
    requires Steady(su.clock) && Usable(su) && Consistent(su, q) && CanAdmit(su, q) && AgedWaiting(su, q, r)
    requires r in Admit(su, q).waiting
    ensures Ahead(Admit(su, q), q.entries[r].envelope) < Ahead(q, q.entries[r].envelope)
  {
    var q', id, e := AdmitOne(su, q), q.waiting[Selected(su, q)], q.entries[r].envelope;
    AdmitOneIsSound(su, q);
    AdmitOneKeeps(su, q);
    AdmitShrinks(su, q', r);
    PickIsAhead(su, q, r);
    AdmitOneSendsAhead(su, q, r);
    AdmitSendsAhead(su, q', r);
    PickHasLeft(su, q, e);
  }

  lemma PickHasLeft(su: Setup, q: Queue, e: Envelope)
    requires Steady(su.clock) && Usable(su) && Consistent(su, q) && CanAdmit(su, q)
    ensures q.waiting[Selected(su, q)] !in Ahead(AdmitOne(su, q), e)
  {
    AdmitOneMoves(su, q);
  }

  /** While r waits, a finished backend frees the slot that such a pass fills. */
  lemma FinishFreesSlot(su: Setup, q: Queue, id: Id, outcome: Status, r: Id)
    requires ValidSetup(su) && Inv(su, q) && AgedWaiting(su, q, r) && Enabled(su, q, BackendFinish(id, outcome))
    ensures Consistent(su, Finish(su, q, id, outcome)) && CanAdmit(su, Finish(su, q, id, outcome))
    ensures AgedWaiting(su, Finish(su, q, id, outcome), r)
    ensures Finish(su, q, id, outcome).entries[r] == q.entries[r]
    ensures Ahead(Finish(su, q, id, outcome), q.entries[r].envelope) == Ahead(q, q.entries[r].envelope)
  {
    FlyingFacts(su, q, id);
    FinishedParts(su, q, id, outcome);
    FinishedIsConsistent(su, q, id, outcome);
    FinishSendsNothing(su, q, id, outcome, r);
    FlyingAfterRemove(q.entries, id);
    SameAhead(q, Finish(su, q, id, outcome), q.entries[r].envelope);
  }

  /** Every finishing backend shrinks what stands ahead of an aged request that keeps waiting. */
  lemma FinishTakesOne(su: Setup, q: Queue, id: Id, outcome: Status, r: Id)
    requires ValidSetup(su) && Inv(su, q) && AgedWaiting(su, q, r) && Enabled(su, q, BackendFinish(id, outcome))
    requires r in Apply(su, q, BackendFinish(id, outcome)).waiting
    ensures Ahead(Apply(su, q, BackendFinish(id, outcome)), q.entries[r].envelope) < Ahead(q, q.entries[r].envelope)
  {
    FinishFreesSlot(su, q, id, outcome, r);
    PassTakesOne(su, Finish(su, q, id, outcome), r);
  }

  /** How many may still be selected before e. */
  ghost function Rank(q: Queue, e: Envelope): nat {
    |Ahead(q, e)|
  }

  /** 1 when the step is a finishing backend. */
  function Completion(step: Step): nat {
    if step.BackendFinish? then 1 else 0
  }

  /** 1 when the step submits a request that came no later than e. */
  function Newcomer(step: Step, e: Envelope): nat {
    if step.Submit? && !Earlier(e, step.envelope) then 1 else 0
  }

  function Completions(steps: seq<Step>, a: nat, n: nat): nat
    requires a <= n <= |steps|
    decreases n
  {
    if a == n then 0 else Completions(steps, a, n - 1) + Completion(steps[n - 1])
  }

  function Newcomers(steps: seq<Step>, a: nat, n: nat, e: Envelope): nat
    requires a <= n <= |steps|
    decreases n
  {
    if a == n then 0 else Newcomers(steps, a, n - 1, e) + Newcomer(steps[n - 1], e)
  }

  lemma LinedAhead(su: Setup, q: Queue, step: Step, r: Id)
    requires Inv(su, q) && AgedWaiting(su, q, r)
    ensures var e := q.entries[r].envelope;
            |Ahead(Lined(su, q, step), e)| <= |Ahead(q, e)| + Newcomer(step, e)
  {
    var l, e := Lined(su, q, step), q.entries[r].envelope;
    LinedKeeps(su, q, step, r);
    NewcomerIsNew(su, q);
    if Newcomer(step, e) == 1 {
      SubsetCount(Ahead(l, e), Ahead(q, e) + {q.nextId});
    }
  }

  /** One step, whatever it is, while the aged r keeps waiting. */
  lemma StepMakesWay(su: Setup, q: Queue, step: Step, r: Id)
    requires ValidSetup(su) && Inv(su, q) && Enabled(su, q, step) && AgedWaiting(su, q, r)
    requires r in Apply(su, q, step).waiting
    ensures var e := q.entries[r].envelope;
            Rank(Apply(su, q, step), e) + Completion(step) <= Rank(q, e) + Newcomer(step, e)
  {
    var q', e := Apply(su, q, step), q.entries[r].envelope;
    if step.BackendFinish? {
      FinishTakesOne(su, q, step.id, step.outcome, r);
      ProperCount(Ahead(q', e), Ahead(q, e));
    } else {
      StepSendsAhead(su, q, step, r);
      LinedAhead(su, q, step, r);
      SubsetCount(Ahead(q', e), Ahead(Lined(su, q, step), e));
    }
  }

  lemma ProperCount(a: set<Id>, b: set<Id>)
    requires a < b
    ensures |a| < |b|
  {
    var x :| x in b && x !in a;
    SubsetCount(a, b - {x});
  }

  lemma RunStepMakesWay(su: Setup, states: seq<Queue>, steps: seq<Step>, a: nat, n: nat, k: nat, r: Id,
      e: Envelope)
    requires IsRun(su, states, steps) && a <= k < n <= |steps|
    requires forall i :: a <= i <= n ==> Inv(su, states[i])
    requires forall i :: a <= i <= n ==> AgedAs(su, states[i], r, e)
    ensures Rank(states[k + 1], e) + Completion(steps[k]) <= Rank(states[k], e) + Newcomer(steps[k], e)
  {
    assert StepsAt(su, states, steps, k) && AgedAs(su, states[k + 1], r, e);
    StepMakesWay(su, states[k], steps[k], r);
  }

  /** Adding up over steps a..n-1, h[k] being how many stand ahead before step k. */
  lemma {:induction false} StepsAddUp(steps: seq<Step>, h: seq<nat>, a: nat, n: nat, e: Envelope)
    requires a <= n <= |steps| && |h| == |steps| + 1
    requires forall k :: a <= k < n ==> h[k + 1] + Completion(steps[k]) <= h[k] + Newcomer(steps[k], e)
    ensures h[n] + Completions(steps, a, n) <= h[a] + Newcomers(steps, a, n, e)
    decreases n
  {
    if a < n {
      StepsAddUp(steps, h, a, n - 1, e);
      var m := n - 1;
      assert h[m + 1] + Completion(steps[m]) <= h[m] + Newcomer(steps[m], e);
    }
  }

  lemma RunMakesWay(su: Setup, states: seq<Queue>, steps: seq<Step>, a: nat, n: nat, r: Id, e: Envelope)
    requires IsRun(su, states, steps) && a <= n <= |steps|
    requires forall k :: a <= k <= n ==> Inv(su, states[k])
    requires forall k :: a <= k <= n ==> AgedAs(su, states[k], r, e)
    ensures Rank(states[n], e) + Completions(steps, a, n) <= Rank(states[a], e) + Newcomers(steps, a, n, e)
  {
    var h: seq<nat> := seq(|states|, k requires 0 <= k < |states| => Rank(states[k], e));
    forall k | a <= k < n ensures h[k + 1] + Completion(steps[k]) <= h[k] + Newcomer(steps[k], e) {
      RunStepMakesWay(su, states, steps, a, n, k, r, e);
    }
    StepsAddUp(steps, h, a, n, e);
  }

  lemma AheadWithinCapacity(su: Setup, q: Queue, e: Envelope)
    requires Inv(su, q)
    ensures Rank(q, e) <= su.capacity
  {
    DistinctCount(q.waiting);
    SubsetCount(Ahead(q, e), IdSet(q.waiting));
  }

  /**
   In every run, whatever is submitted meanwhile: while an aged request keeps waiting, completions do not outnumber
   the requests ahead of it and those that join ahead; fewer than queue_capacity of them happen beyond the latter.
  */
  lemma AgedLeavesInTime(su: Setup, states: seq<Queue>, steps: seq<Step>, a: nat, n: nat, r: Id, e: Envelope)
    requires IsRun(su, states, steps) && a <= n <= |steps| && Inv(su, states[a]) && AgedAs(su, states[a], r, e)
    requires StaysInLine(states, a, n, r)
    ensures Rank(states[n], e) + Completions(steps, a, n) <= Rank(states[a], e) + Newcomers(steps, a, n, e)
    ensures Completions(steps, a, n) < su.capacity + Newcomers(steps, a, n, e)
  {
    InvAlways(su, states, steps, a, n);
    StaysAged(su, states, steps, a, n, r, e);
    RunMakesWay(su, states, steps, a, n, r, e);
    AheadWithinCapacity(su, states[a], e);
    assert AgedAs(su, states[n], r, e);
    SubsetCount({r}, Ahead(states[n], e));
  }
}
