/**
 A request keeps its terms: from the step that accepts it to every later state of the run it is live or finished, with
 the enqueue time and the envelope it was submitted with, up to the limit a dispatch gave it.
*/
module RequestTerms {
  import opened Models
  import opened Admission
  import opened AdmissionSafety
  import opened RequestFates

  /** e' is e up to the backend limit. */
  ghost predicate SameTerms(e: Envelope, e': Envelope) {
    e'.(backendMax := e.backendMax) == e
  }

  ghost predicate KeptTerms(q: Queue, id: Id, e: Envelope, enqueue: real) {
    && (id in q.entries || id in q.results)
    && (id in q.entries ==> q.entries[id].enqueue == enqueue && SameTerms(e, q.entries[id].envelope))
    && (id in q.results ==> q.results[id].enqueue == enqueue && SameTerms(e, q.results[id].effective))
  }

  lemma FateKeepsTerms(su: Setup, q: Queue, q': Queue, id: Id, e: Envelope, enqueue: real)
    requires id in q.entries && PassFate(su, q, q', id) && KeptTerms(q, id, e, enqueue)
    requires id in q'.entries ==> id !in q'.results
    ensures KeptTerms(q', id, e, enqueue)
  {
    if Launched(su, q, q', id) && su.adaptive.Some? {
      var n: nat :| |q.decisions| <= n < |q'.decisions|
        && Granted(su.adaptive.value.estimate, q.entries[id].envelope, q'.entries[id].envelope, q'.decisions[n]);
    }
  }

  lemma StopKeepsTerms(su: Setup, q: Queue, q': Queue, stopped: Id, status: Status, id: Id, e: Envelope, enqueue: real)
    requires stopped in q.entries && Stopped(su, q, q', stopped, status) && KeptTerms(q, id, e, enqueue)
    ensures KeptTerms(q', id, e, enqueue)
  {
  }

  lemma CloseKeepsTerms(su: Setup, q: Queue, q': Queue, id: Id, e: Envelope, enqueue: real)
    requires Sound(q) && AllCancelled(su, q, q') && KeptTerms(q, id, e, enqueue)
    requires forall x :: x in q.results ==> x in q'.results && q'.results[x] == q.results[x]
    requires forall x :: x in q'.entries ==> x !in q'.results
    ensures KeptTerms(q', id, e, enqueue)
  {
    if id in q.entries && q.entries[id].phase.Waiting? && id !in q.results {
      var k :| 0 <= k < |q.waiting| && q.waiting[k] == id;
      assert CancelledAt(su, q, q', k);
    }
  }

  lemma FinishKeepsTerms(su: Setup, q: Queue, done: Id, outcome: Status, id: Id, e: Envelope, enqueue: real)
    requires ValidSetup(su) && Inv(su, q) && Enabled(su, q, BackendFinish(done, outcome))
    requires KeptTerms(q, id, e, enqueue)
    ensures KeptTerms(Apply(su, q, BackendFinish(done, outcome)), id, e, enqueue)
  {
    var q' := Apply(su, q, BackendFinish(done, outcome));
    StepKeepsInv(su, q, BackendFinish(done, outcome));
    FinishReports(su, q, done, outcome);
    FinishLeavesOthers(su, q, done, outcome);
    if id in q.entries && id != done {
      FateKeepsTerms(su, q, q', id, e, enqueue);
    }
  }

  lemma SubmitKeepsTerms(su: Setup, q: Queue, s: Envelope, enqueued: real, id: Id, e: Envelope, enqueue: real)
    requires ValidSetup(su) && Inv(su, q) && Enabled(su, q, Submit(s, enqueued))
    requires KeptTerms(q, id, e, enqueue) || (id == q.nextId && (e, enqueue) == (s, enqueued) && !Full(su, q))
    requires id == q.nextId ==> Accepting(q)
    ensures KeptTerms(Apply(su, q, Submit(s, enqueued)), id, e, enqueue)
  {
    var a, q' := Joined(q, s, enqueued), Apply(su, q, Submit(s, enqueued));
    StepKeepsInv(su, q, Submit(s, enqueued));
    SubmitEnters(su, q, s, enqueued);
    if Accepting(q) && !Full(su, q) {
      assert q.nextId !in q.entries && q.nextId !in q.results;
      if id in a.entries {
        FateKeepsTerms(su, a, q', id, e, enqueue);
      }
    }
  }

  lemma StepKeepsTerms(su: Setup, q: Queue, step: Step, id: Id, e: Envelope, enqueue: real)
    requires ValidSetup(su) && Inv(su, q) && Enabled(su, q, step) && KeptTerms(q, id, e, enqueue)
    ensures KeptTerms(Apply(su, q, step), id, e, enqueue)
  {
    var q' := Apply(su, q, step);
    match step
    case Submit(s, enqueued) =>
      assert id < q.nextId;
      SubmitKeepsTerms(su, q, s, enqueued, id, e, enqueue);
    case BackendFinish(done, outcome) => FinishKeepsTerms(su, q, done, outcome, id, e, enqueue);
    case TimerFire(stopped) =>
      StopsDecide(su, q, stopped);
      if stopped in q.entries { StopKeepsTerms(su, q, q', stopped, Timeout, id, e, enqueue); }
    case SubmitterCancel(stopped) =>
      StopsDecide(su, q, stopped);
      if stopped in q.entries { StopKeepsTerms(su, q, q', stopped, Cancelled, id, e, enqueue); }
    case BeginClose => CloseStepKeepsTerms(su, q, id, e, enqueue);
    case _ =>
  }

  lemma CloseStepKeepsTerms(su: Setup, q: Queue, id: Id, e: Envelope, enqueue: real)
    requires ValidSetup(su) && Inv(su, q) && KeptTerms(q, id, e, enqueue)
    ensures KeptTerms(Apply(su, q, BeginClose), id, e, enqueue)
  {
    var q' := Apply(su, q, BeginClose);
    StepKeepsInv(su, q, BeginClose);
    OthersAddNoSuccess(su, q, BeginClose);
    CloseCancels(su, q);
    if !q.closed && q.started {
      CloseKeepsTerms(su, q, q', id, e, enqueue);
    }
  }

  /** A submission is accepted when the queue is open and its line is not full. */
  ghost predicate Accepts(su: Setup, q: Queue, step: Step) {
    step.Submit? && Accepting(q) && |q.waiting| < su.capacity
  }

  /** In every run, each accepted request is live or finished ever after, on the terms it came with. */
  lemma {:induction false} RequestsKeepTheirTerms(su: Setup, states: seq<Queue>, steps: seq<Step>, a: nat, n: nat)
    requires IsRun(su, states, steps) && states[0] == EMPTY && a < n <= |steps| && Accepts(su, states[a], steps[a])
    ensures KeptTerms(states[n], states[a].nextId, steps[a].envelope, steps[a].enqueue)
    decreases n
  {
    QueueIsSafe(su, states, steps, n - 1);
    assert StepsAt(su, states, steps, n - 1);
    if n == a + 1 {
      SubmitKeepsTerms(su, states[a], steps[a].envelope, steps[a].enqueue, states[a].nextId,
                       steps[a].envelope, steps[a].enqueue);
    } else {
      RequestsKeepTheirTerms(su, states, steps, a, n - 1);
      StepKeepsTerms(su, states[n - 1], steps[n - 1], states[a].nextId, steps[a].envelope, steps[a].enqueue);
    }
  }
}
