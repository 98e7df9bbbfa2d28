/**
 What each step does to each request, in terms of its entry and its result alone: who is sent and with what limit, who
 times out, what forces a running call, and with which status, times and envelope a request is reported.
*/
module RequestFates {
  import opened Wrappers
  import opened Models
  import opened Clipping
  import opened Policies
  import opened Admission
  import opened AdmissionSafety
  import AC = AdaptiveClipping

  // ---------------------------------------------------------------- one admission

  /** The envelope e' is e under the cap of the decision: clipped exactly when estimate and target exceed it. */
  ghost predicate Granted(estimate: Estimator, e: Envelope, e': Envelope, d: AdmissionDecision) {
    var cap := d.decision.selectedCap;
    && d.requestId == e.requestId
    && e' == if cap.Some? && 0 <= cap.value && estimate(e) > cap.value as real && e.maxOutputTokens > cap.value
             then e.(backendMax := Some(cap.value)) else e
  }

  /** The envelope sent: the waiting one, or, with a controller, what a decision logged on the way grants it. */
  ghost predicate Provisioned(su: Setup, q: Queue, q': Queue, e: Envelope, e': Envelope) {
    if su.adaptive.None? then e' == e
    else exists n: nat ::
      |q.decisions| <= n < |q'.decisions| && Granted(su.adaptive.value.estimate, e, e', q'.decisions[n])
  }

  /** Two readings on the way from q to q': at the first the request is short of the timeout, the second is t. */
  ghost predicate TimelyAt(su: Setup, q: Queue, q': Queue, enqueue: real, t: real) {
    exists i: nat, j: nat ::
      q.tick <= i < j < q'.tick && su.clock(i) - enqueue < su.timeout && su.clock(j) == t
  }

  /** Two readings on the way from q to q': at the first the request has reached the timeout, the second is t. */
  ghost predicate LateAt(su: Setup, q: Queue, q': Queue, enqueue: real, t: real) {
    exists i: nat, j: nat ::
      q.tick <= i < j < q'.tick && su.clock(i) - enqueue >= su.timeout && su.clock(j) == t
  }

  /** From q to q' the waiting request was handed to the backend, in time. */
  ghost predicate Launched(su: Setup, q: Queue, q': Queue, id: Id)
    requires id in q.entries
  {
    var e := q.entries[id];
    && e.phase.Waiting? && id in q'.entries
    && var e' := q'.entries[id];
       && e'.phase.InFlight? && e'.enqueue == e.enqueue && e'.forced == e.forced
       && e'.dispatch.Some? && TimelyAt(su, q, q', e.enqueue, e'.dispatch.value)
       && Provisioned(su, q, q', e.envelope, e'.envelope)
  }

  /** From q to q' the waiting request was found overdue and reported so. */
  ghost predicate Expired(su: Setup, q: Queue, q': Queue, id: Id)
    requires id in q.entries
  {
    var e := q.entries[id];
    && e.phase.Waiting? && id !in q'.entries && id in q'.results
    && var r := q'.results[id];
       && r == AdmissionResult(Timeout, e.enqueue, e.dispatch, r.completion, e.envelope)
       && LateAt(su, q, q', e.enqueue, r.completion)
  }

  ghost predicate Untouched(q: Queue, q': Queue, id: Id)
    requires id in q.entries
  {
    id in q'.entries && q'.entries[id] == q.entries[id]
  }

  /** From q to q' time passed, the log grew, and every result was kept. */
  ghost predicate Grows(q: Queue, q': Queue) {
    && q.tick <= q'.tick && |q.decisions| <= |q'.decisions| && q'.decisions[..|q.decisions|] == q.decisions
    && (forall id :: id in q.results ==> id in q'.results && q'.results[id] == q.results[id])
  }

  ghost predicate NoneNew(q: Queue, q': Queue) {
    forall id :: id in q'.entries ==> id in q.entries
  }

  lemma LaunchedNow(su: Setup, q: Queue, id: Id)
    requires Usable(su) && Sound(q) && |q.waiting| > 0 && id == q.waiting[Selected(su, q)]
    requires su.clock(q.tick + 1) - q.entries[id].enqueue < su.timeout
    ensures Launched(su, q, AdmitOne(su, q), id)
  {
    var popped, e := Popped(su, q), q.entries[id];
    assert AdmitOne(su, q) == Dispatch(su, popped, id);
    DispatchEffect(su, popped, id);
    var sent := AdmitOne(su, q).tick - 1;
    assert su.clock(q.tick + 1) - e.enqueue < su.timeout && su.clock(sent) == su.clock(sent);
    DispatchProvisions(su, popped, id);
  }

  lemma DispatchProvisions(su: Setup, q: Queue, id: Id)
    requires Usable(su) && id in q.entries && AC.WellFormed(q.levels)
    ensures id in Dispatch(su, q, id).entries
    ensures Provisioned(su, q, Dispatch(su, q, id), q.entries[id].envelope, Dispatch(su, q, id).entries[id].envelope)
  {
    if su.adaptive.Some? {
      var n, q' := |q.decisions|, Dispatch(su, q, id);
      assert Granted(su.adaptive.value.estimate, q.entries[id].envelope, q'.entries[id].envelope, q'.decisions[n]);
    }
  }

  lemma ExpiredNow(su: Setup, q: Queue, id: Id)
    requires Usable(su) && Sound(q) && |q.waiting| > 0 && id == q.waiting[Selected(su, q)]
    requires su.clock(q.tick + 1) - q.entries[id].enqueue >= su.timeout
    ensures Expired(su, q, AdmitOne(su, q), id)
  {
    var q', e := AdmitOne(su, q), q.entries[id];
    assert su.clock((q.tick + 2) - 1) == su.clock(q.tick + 1);
    assert su.clock(q.tick + 1) - e.enqueue >= su.timeout && su.clock(q.tick + 2) == q'.results[id].completion;
  }

  /**
   One turn of the admission loop: the request the policy selects at one reading is launched if the next reading is
   short of its timeout, and otherwise reported overdue; every other request and every result is left alone.
  */
  lemma TurnDecides(su: Setup, q: Queue)
    requires Usable(su) && Consistent(su, q) && CanAdmit(su, q)
    ensures var id, q' := q.waiting[Head(su.policy, Envelopes(q), su.clock(q.tick))], AdmitOne(su, q);
            && id in q.entries && Grows(q, q') && NoneNew(q, q')
            && (if su.clock(q.tick + 1) - q.entries[id].enqueue < su.timeout then Launched(su, q, q', id)
                else Expired(su, q, q', id))
            && forall other :: other in q.entries && other != id ==> Untouched(q, q', other)
  {
    var id := q.waiting[Selected(su, q)];
    WaitingFacts(su, q, id);
    if su.clock(q.tick + 1) - q.entries[id].enqueue < su.timeout {
      LaunchedNow(su, q, id);
    } else {
      ExpiredNow(su, q, id);
    }
    TurnGrows(su, q);
  }

  lemma TurnGrows(su: Setup, q: Queue)
    requires Usable(su) && Consistent(su, q) && CanAdmit(su, q)
    ensures Grows(q, AdmitOne(su, q)) && NoneNew(q, AdmitOne(su, q))
    ensures var id := q.waiting[Selected(su, q)];
            forall other :: other in q.entries && other != id ==> Untouched(q, AdmitOne(su, q), other)
  {
    var id, popped := q.waiting[Selected(su, q)], Popped(su, q);
    WaitingFacts(su, q, id);
    if Overdue(su, popped, id) {
      CompleteEffect(su, popped, id, Timeout);
    } else {
      DispatchEffect(su, popped, id);
    }
  }

  // ---------------------------------------------------------------- a pass

  /** What a pass may do to a request: nothing, or, to a waiting one, launch it or report it overdue. */
  ghost predicate PassFate(su: Setup, q: Queue, q': Queue, id: Id)
    requires id in q.entries
  {
    Untouched(q, q', id) || Launched(su, q, q', id) || Expired(su, q, q', id)
  }

  ghost predicate PassFates(su: Setup, q: Queue, q': Queue) {
    Grows(q, q') && NoneNew(q, q') && forall id :: id in q.entries ==> PassFate(su, q, q', id)
  }

  lemma GrowsOn(a: Queue, b: Queue, c: Queue)
    requires Grows(a, b) && Grows(b, c)
    ensures Grows(a, c)
  {
    assert c.decisions[..|a.decisions|] == b.decisions[..|a.decisions|];
  }

  lemma LaunchedLater(su: Setup, a: Queue, b: Queue, c: Queue, id: Id)
    requires Grows(a, b) && Grows(b, c) && id in a.entries && Untouched(a, b, id) && Launched(su, b, c, id)
    ensures Launched(su, a, c, id)
  {
    var e, t := a.entries[id], c.entries[id].dispatch.value;
    var i: nat, j: nat :|
      b.tick <= i < j < c.tick && su.clock(i) - e.enqueue < su.timeout && su.clock(j) == t;
    assert a.tick <= i < j < c.tick;
    if su.adaptive.Some? {
      var n: nat :| |b.decisions| <= n < |c.decisions|
        && Granted(su.adaptive.value.estimate, e.envelope, c.entries[id].envelope, c.decisions[n]);
      assert |a.decisions| <= n;
    }
  }

  lemma ExpiredLater(su: Setup, a: Queue, b: Queue, c: Queue, id: Id)
    requires Grows(a, b) && Grows(b, c) && id in a.entries && Untouched(a, b, id) && Expired(su, b, c, id)
    ensures Expired(su, a, c, id)
  {
    var e, t := a.entries[id], c.results[id].completion;
    var i: nat, j: nat :|
      b.tick <= i < j < c.tick && su.clock(i) - e.enqueue >= su.timeout && su.clock(j) == t;
    assert a.tick <= i < j < c.tick;
  }

  lemma StaysLaunched(su: Setup, a: Queue, b: Queue, c: Queue, id: Id)
    requires Grows(a, b) && Grows(b, c) && id in a.entries && Launched(su, a, b, id) && PassFate(su, b, c, id)
    ensures Launched(su, a, c, id)
  {
    var e, t := a.entries[id], b.entries[id].dispatch.value;
    var i: nat, j: nat :|
      a.tick <= i < j < b.tick && su.clock(i) - e.enqueue < su.timeout && su.clock(j) == t;
    assert a.tick <= i < j < c.tick;
    if su.adaptive.Some? {
      var n: nat :| |a.decisions| <= n < |b.decisions|
        && Granted(su.adaptive.value.estimate, e.envelope, b.entries[id].envelope, b.decisions[n]);
      assert c.decisions[n] == c.decisions[..|b.decisions|][n] == b.decisions[n];
    }
  }

  lemma StaysExpired(su: Setup, a: Queue, b: Queue, c: Queue, id: Id)
    requires Grows(a, b) && Grows(b, c) && NoneNew(b, c) && id in a.entries && Expired(su, a, b, id)
    ensures Expired(su, a, c, id)
  {
    var e, t := a.entries[id], b.results[id].completion;
    var i: nat, j: nat :|
      a.tick <= i < j < b.tick && su.clock(i) - e.enqueue >= su.timeout && su.clock(j) == t;
    assert a.tick <= i < j < c.tick;
  }

  lemma FateOn(su: Setup, a: Queue, b: Queue, c: Queue, id: Id)
    requires Grows(a, b) && id in a.entries && PassFate(su, a, b, id)
    requires PassFates(su, b, c)
    ensures PassFate(su, a, c, id)
  {
    if Untouched(a, b, id) {
      assert PassFate(su, b, c, id);
      if Launched(su, b, c, id) {
        LaunchedLater(su, a, b, c, id);
      } else if Expired(su, b, c, id) {
        ExpiredLater(su, a, b, c, id);
      }
    } else if Launched(su, a, b, id) {
      assert PassFate(su, b, c, id);
      StaysLaunched(su, a, b, c, id);
    } else {
      StaysExpired(su, a, b, c, id);
    }
  }

  lemma FatesCompose(su: Setup, a: Queue, b: Queue, c: Queue)
    requires PassFates(su, a, b) && PassFates(su, b, c)
    ensures PassFates(su, a, c)
  {
    GrowsOn(a, b, c);
    forall id | id in a.entries ensures PassFate(su, a, c, id) {
      FateOn(su, a, b, c, id);
    }
  }

  /** An admission pass only launches waiting requests in time and reports overdue ones. */
  lemma {:induction false} PassDecides(su: Setup, q: Queue)
    requires Steady(su.clock) && Usable(su) && Consistent(su, q)
    ensures PassFates(su, q, Admit(su, q))
    decreases |q.waiting|
  {
    if CanAdmit(su, q) {
      AdmitOneIsSound(su, q);
      AdmitOneKeeps(su, q);
      TurnFates(su, q);
      PassDecides(su, AdmitOne(su, q));
      FatesCompose(su, q, AdmitOne(su, q), Admit(su, q));
    }
  }

  lemma TurnFates(su: Setup, q: Queue)
    requires Usable(su) && Consistent(su, q) && CanAdmit(su, q)
    ensures PassFates(su, q, AdmitOne(su, q))
  {
    TurnDecides(su, q);
    var picked := q.waiting[Head(su.policy, Envelopes(q), su.clock(q.tick))];
    forall id | id in q.entries ensures PassFate(su, q, AdmitOne(su, q), id) {
      if id != picked {
        assert Untouched(q, AdmitOne(su, q), id);
      }
    }
  }

  // ---------------------------------------------------------------- how requests finish

  /**
   A finishing backend reports its request at once: with the forced status if there is one, else as timed out when the
   next reading has reached the timeout, else with the backend's own outcome; with the times and envelope it had.
  */
  lemma FinishReports(su: Setup, q: Queue, id: Id, outcome: Status)
    requires ValidSetup(su) && Inv(su, q) && Enabled(su, q, BackendFinish(id, outcome))
    ensures var q', e := Apply(su, q, BackendFinish(id, outcome)), q.entries[id];
            && id !in q'.entries && id in q'.results
            && q'.results[id] == ReportOf(su, q, e, outcome)
  {
    var f := Finish(su, q, id, outcome);
    FlyingFacts(su, q, id);
    FinishedIsConsistent(su, q, id, outcome);
    PassDecides(su, f);
  }

  /** The report of a request in flight whose backend ends now. */
  function ReportOf(su: Setup, q: Queue, e: Entry, outcome: Status): AdmissionResult {
    var reading := su.clock(q.tick);
    if e.forced.Some? then AdmissionResult(e.forced.value, e.enqueue, e.dispatch, reading, e.envelope)
    else
      AdmissionResult(if reading - e.enqueue >= su.timeout then Timeout else outcome,
                      e.enqueue, e.dispatch, su.clock(q.tick + 1), e.envelope)
  }

  /** The finish itself, before its pass, touches nobody else. */
  lemma FinishTouchesOne(su: Setup, q: Queue, id: Id, outcome: Status)
    requires Inv(su, q) && Enabled(su, q, BackendFinish(id, outcome))
    ensures Grows(q, Finish(su, q, id, outcome))
    ensures forall other :: other in q.entries && other != id ==> Untouched(q, Finish(su, q, id, outcome), other)
  {
    FlyingFacts(su, q, id);
  }

  lemma FatesAfter(su: Setup, a: Queue, b: Queue, c: Queue, id: Id)
    requires Grows(a, b) && PassFates(su, b, c)
    requires forall other :: other in a.entries && other != id ==> Untouched(a, b, other)
    ensures Grows(a, c) && forall other :: other in a.entries && other != id ==> PassFate(su, a, c, other)
  {
    GrowsOn(a, b, c);
    forall other | other in a.entries && other != id ensures PassFate(su, a, c, other) {
      FateOn(su, a, b, c, other);
    }
  }

  /** What the pass after a finish does to everybody else. */
  lemma FinishLeavesOthers(su: Setup, q: Queue, id: Id, outcome: Status)
    requires ValidSetup(su) && Inv(su, q) && Enabled(su, q, BackendFinish(id, outcome))
    ensures var q' := Apply(su, q, BackendFinish(id, outcome));
            Grows(q, q') && forall other :: other in q.entries && other != id ==> PassFate(su, q, q', other)
  {
    var f := Finish(su, q, id, outcome);
    FinishedIsConsistent(su, q, id, outcome);
    PassDecides(su, f);
    FinishTouchesOne(su, q, id, outcome);
    FatesAfter(su, q, f, Admit(su, f), id);
  }

  // ---------------------------------------------------------------- submissions

  /** The table with a newcomer's entry. */
  function Joined(q: Queue, e: Envelope, enqueue: real): Queue {
    q.(entries := q.entries[q.nextId := Entry(e, enqueue, Waiting, None, None)])
  }

  /**
   A submission is ignored while the queue does not accept, takes one reading when the line is full, and otherwise
   gives the next id to a new waiting entry, after which a pass runs.
  */
  lemma SubmitEnters(su: Setup, q: Queue, e: Envelope, enqueue: real)
    requires ValidSetup(su) && Inv(su, q) && Enabled(su, q, Submit(e, enqueue))
    ensures var q' := Apply(su, q, Submit(e, enqueue));
            if !Accepting(q) then q' == q
            else if |q.waiting| == su.capacity then q' == q.(tick := q.tick + 1)
            else q'.nextId == q.nextId + 1 && PassFates(su, Joined(q, e, enqueue), q')
  {
    if Accepting(q) && !Full(su, q) {
      var a, q' := AddWaiting(q, e, enqueue), Apply(su, q, Submit(e, enqueue));
      AddedIsConsistent(su, q, e, enqueue);
      AdmitKeeps(su, a);
      PassDecides(su, a);
      SameFates(su, a, Joined(q, e, enqueue), q');
    }
  }

  /** Fates depend on the table, the clock and the log alone. */
  lemma SameFates(su: Setup, a: Queue, b: Queue, q': Queue)
    requires a.entries == b.entries && a.results == b.results && a.tick == b.tick && a.decisions == b.decisions
    requires PassFates(su, a, q')
    ensures PassFates(su, b, q')
  {
    forall id | id in b.entries ensures PassFate(su, b, q', id) {
      assert PassFate(su, a, q', id);
    }
  }

  // ---------------------------------------------------------------- timers, cancellations and closing

  /** How a request is stopped: out of the line with a result, or in flight with a forced status. */
  ghost predicate Stopped(su: Setup, q: Queue, q': Queue, id: Id, status: Status)
    requires id in q.entries
  {
    var e := q.entries[id];
    if e.phase.InFlight? then q' == q.(entries := q.entries[id := e.(forced := Some(status))])
    else
      && q' == q.(waiting := q'.waiting, entries := q.entries - {id}, tick := q.tick + 1,
                  results := q.results[id := AdmissionResult(status, e.enqueue, e.dispatch, su.clock(q.tick),
                                                             e.envelope)])
      && (forall x :: x in q'.waiting <==> x in q.waiting && x != id)
  }

  /**
   A timer marks a running call as timed out and takes a waiting request out of line as timed out; a cancelling
   submitter does the same as cancelled. Neither touches a finished request or anyone else.
  */
  lemma StopsDecide(su: Setup, q: Queue, id: Id)
    requires ValidSetup(su) && Inv(su, q) && id < q.nextId
    ensures Enabled(su, q, TimerFire(id)) && id in q.entries ==>
              Stopped(su, q, Apply(su, q, TimerFire(id)), id, Timeout)
    ensures id in q.entries ==> Stopped(su, q, Apply(su, q, SubmitterCancel(id)), id, Cancelled)
    ensures id !in q.entries ==> Apply(su, q, TimerFire(id)) == q == Apply(su, q, SubmitterCancel(id))
  {
    if id in q.entries && q.entries[id].phase.Waiting? {
      WithoutRemoves(q.waiting, id);
    }
  }

  /** Waiting request k is reported cancelled at the k-th reading. */
  ghost predicate CancelledAt(su: Setup, q: Queue, q': Queue, k: nat)
    requires Tabled(q) && k < |q.waiting|
  {
    var id := q.waiting[k];
    id in q'.results
    && q'.results[id] == AdmissionResult(Cancelled, q.entries[id].enqueue, q.entries[id].dispatch,
                                         su.clock(q.tick + k), q.entries[id].envelope)
  }

  ghost predicate Drained(su: Setup, q: Queue, q': Queue)
    requires Tabled(q)
  {
    && (forall k :: 0 <= k < |q.waiting| ==> CancelledAt(su, q, q', k))
    && (forall id :: id in q.results ==> id in q'.results && q'.results[id] == q.results[id])
    && (forall id :: id in q'.results ==> id in q.results || id in q.waiting)
    && (forall id :: id in q'.entries <==> id in q.entries && id !in q.waiting)
    && (forall id :: id in q'.entries ==> q'.entries[id] == q.entries[id])
    && q' == q.(waiting := [], entries := q'.entries, results := q'.results, tick := q.tick + |q.waiting|)
  }

  lemma {:induction false} DrainReports(su: Setup, q: Queue)
    requires Steady(su.clock) && Consistent(su, q)
    ensures Drained(su, q, DrainWaiting(su, q))
    decreases |q.waiting|
  {
    if |q.waiting| > 0 {
      WaitingFacts(su, q, q.waiting[0]);
      DrainOneKeeps(su, q);
      DrainReports(su, DrainOne(su, q));
      DrainOneCancels(su, q);
      DrainStep(su, q, DrainOne(su, q), DrainWaiting(su, q), q.waiting[0]);
    }
  }

  /** q once its first waiting request, id, has been reported cancelled. */
  ghost predicate OneCancelled(su: Setup, q: Queue, one: Queue, id: Id) {
    && id in q.entries && q.waiting == [id] + one.waiting
    && var r := AdmissionResult(Cancelled, q.entries[id].enqueue, q.entries[id].dispatch, su.clock(q.tick),
                                q.entries[id].envelope);
       one == q.(waiting := one.waiting, entries := q.entries - {id}, tick := q.tick + 1,
                 results := q.results[id := r])
  }

  lemma DrainOneCancels(su: Setup, q: Queue)
    requires |q.waiting| > 0 && q.waiting[0] in q.entries
    ensures OneCancelled(su, q, DrainOne(su, q), q.waiting[0])
  {
  }

  lemma DrainStep(su: Setup, q: Queue, one: Queue, q': Queue, id: Id)
    requires Tabled(q) && Distinct(q.waiting) && id !in q.results && OneCancelled(su, q, one, id)
    requires Tabled(one) && Drained(su, one, q')
    ensures Drained(su, q, q')
  {
    assert q.waiting[0] == id;
    forall k | 0 <= k < |q.waiting| ensures CancelledAt(su, q, q', k) {
      if k > 0 {
        CancelledLater(su, q, one, q', k);
      } else {
        assert id in one.results;
      }
    }
  }

  lemma CancelledLater(su: Setup, q: Queue, one: Queue, q': Queue, k: nat)
    requires Tabled(q) && Distinct(q.waiting) && Tabled(one) && 0 < k < |q.waiting|
    requires OneCancelled(su, q, one, q.waiting[0]) && CancelledAt(su, one, q', k - 1)
    ensures CancelledAt(su, q, q', k)
  {
    assert one.waiting[k - 1] == q.waiting[k] && q.waiting[0] != q.waiting[k];
  }

  /** Everyone waiting was reported cancelled, in order, and every running call is marked as cancelled. */
  ghost predicate AllCancelled(su: Setup, q: Queue, q': Queue)
    requires Tabled(q)
  {
    && (forall k :: 0 <= k < |q.waiting| ==> CancelledAt(su, q, q', k))
    && (forall id :: id in q'.entries <==> id in q.entries && q.entries[id].phase.InFlight?)
    && (forall id :: id in q'.entries ==> q'.entries[id] == q.entries[id].(forced := Some(Cancelled)))
    && q' == q.(waiting := [], closing := true, entries := q'.entries, results := q'.results,
                tick := q.tick + |q.waiting|)
  }

  lemma ForcedAfterDrain(su: Setup, q: Queue, d: Queue)
    requires Sound(q) && Drained(su, Closing(q), d)
    ensures AllCancelled(su, q, ForceFlying(d))
  {
    forall k | 0 <= k < |q.waiting| ensures CancelledAt(su, q, ForceFlying(d), k) {
      assert CancelledAt(su, Closing(q), d, k);
    }
  }

  /** Closing an open queue cancels everyone; before the start it only closes, and a closed queue stays as it is. */
  lemma CloseCancels(su: Setup, q: Queue)
    requires ValidSetup(su) && Inv(su, q)
    ensures var q' := Apply(su, q, BeginClose);
            if q.closed then q' == q
            else if !q.started then q' == q.(closed := true)
            else AllCancelled(su, q, q')
  {
    if !q.closed && q.started {
      ClosingIsConsistent(su, q);
      DrainReports(su, Closing(q));
      ForcedAfterDrain(su, q, DrainWaiting(su, Closing(q)));
    }
  }

  lemma ClosingIsConsistent(su: Setup, q: Queue)
    requires Consistent(su, q)
    ensures Consistent(su, Closing(q))
  {
  }

  /** Starting opens a queue that is not closed; a reading takes one tick; the end of closing leaves it closed. */
  lemma PlainSteps(su: Setup, q: Queue, aborted: bool)
    requires ValidSetup(su) && Sound(q)
    ensures Apply(su, q, Start) == if q.closed then q else q.(started := true)
    ensures Apply(su, q, Read) == q.(tick := q.tick + 1)
    ensures Enabled(su, q, EndClose(aborted)) ==>
              Apply(su, q, EndClose(aborted)) == q.(closed := true, closing := false)
  {
  }

  // ---------------------------------------------------------------- the waiting line

  /** x stands before y. */
  ghost predicate Precedes(ids: seq<Id>, x: Id, y: Id) {
    exists i, j :: 0 <= i < j < |ids| && ids[i] == x && ids[j] == y
  }

  ghost predicate KeepsOrder(ids: seq<Id>, ids': seq<Id>) {
    forall x, y :: Precedes(ids', x, y) ==> Precedes(ids, x, y)
  }

  lemma RemoveAtKeepsOrder(ids: seq<Id>, n: nat)
    requires n < |ids|
    ensures KeepsOrder(ids, RemoveAt(ids, n))
  {
    var r := RemoveAt(ids, n);
    forall x, y | Precedes(r, x, y) ensures Precedes(ids, x, y) {
      var i, j :| 0 <= i < j < |r| && r[i] == x && r[j] == y;
      var i', j' := if i < n then i else i + 1, if j < n then j else j + 1;
      assert ids[i'] == x && ids[j'] == y;
    }
  }

  lemma {:induction false} WithoutIsRemoveAt(ids: seq<Id>, id: Id) returns (n: nat)
    requires id in ids
    ensures n < |ids| && Without(ids, id) == RemoveAt(ids, n)
  {
    if ids[0] == id {
      n := 0;
    } else {
      var m := WithoutIsRemoveAt(ids[1..], id);
      n := m + 1;
      assert ids[..n] == [ids[0]] + ids[1..][..m] && ids[n + 1..] == ids[1..][m + 1..];
    }
  }

  lemma WithoutKeepsOrder(ids: seq<Id>, id: Id)
    requires id in ids
    ensures KeepsOrder(ids, Without(ids, id))
  {
    var n := WithoutIsRemoveAt(ids, id);
    RemoveAtKeepsOrder(ids, n);
  }

  lemma {:induction false} PassKeepsOrder(su: Setup, q: Queue)
    requires Steady(su.clock) && Usable(su) && Consistent(su, q)
    ensures KeepsOrder(q.waiting, Admit(su, q).waiting)
    decreases |q.waiting|
  {
    if CanAdmit(su, q) {
      AdmitOneIsSound(su, q);
      AdmitOneKeeps(su, q);
      RemoveAtKeepsOrder(q.waiting, Selected(su, q));
      TurnRemoves(su, q);
      PassKeepsOrder(su, AdmitOne(su, q));
    }
  }

  lemma TurnRemoves(su: Setup, q: Queue)
    requires Usable(su) && Sound(q) && |q.waiting| > 0
    ensures AdmitOne(su, q).waiting == RemoveAt(q.waiting, Selected(su, q))
  {
    var id, popped := q.waiting[Selected(su, q)], Popped(su, q);
    if !Overdue(su, popped, id) {
      DispatchEffect(su, popped, id);
    }
  }

  /** The line, with the newcomer of an accepted submission at its end. */
  function LineOf(su: Setup, q: Queue, step: Step): seq<Id> {
    if step.Submit? && Accepting(q) && |q.waiting| < su.capacity then q.waiting + [q.nextId] else q.waiting
  }

  /** Every step keeps those who go on waiting in the order they came. */
  lemma LineKeepsOrder(su: Setup, q: Queue, step: Step)
    requires ValidSetup(su) && Inv(su, q) && Enabled(su, q, step)
    ensures KeepsOrder(LineOf(su, q, step), Apply(su, q, step).waiting)
  {
    match step
    case Submit(e, enqueue) =>
      if Accepting(q) && !Full(su, q) {
        AddedIsConsistent(su, q, e, enqueue);
        PassKeepsOrder(su, AddWaiting(q, e, enqueue));
      }
    case BackendFinish(id, outcome) =>
      FinishedIsConsistent(su, q, id, outcome);
      FinishLine(su, q, id, outcome);
      PassKeepsOrder(su, Finish(su, q, id, outcome));
    case TimerFire(id) => StopKeepsOrder(su, q, id, Timeout);
    case SubmitterCancel(id) => StopKeepsOrder(su, q, id, Cancelled);
    case _ =>
  }

  lemma FinishLine(su: Setup, q: Queue, id: Id, outcome: Status)
    requires id in q.entries
    ensures Finish(su, q, id, outcome).waiting == q.waiting
  {
  }

  lemma StopKeepsOrder(su: Setup, q: Queue, id: Id, status: Status)
    requires Sound(q)
    ensures id in q.entries && q.entries[id].phase.Waiting? ==>
              KeepsOrder(q.waiting, DropWaiting(su, q, id, status).waiting)
  {
    if id in q.entries && q.entries[id].phase.Waiting? {
      WithoutKeepsOrder(q.waiting, id);
    }
  }
}
