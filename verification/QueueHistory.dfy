/** The decision log of every run of the queue is the log of one controller history. */
module QueueHistory {
  import opened Admission
  import opened AdmissionSafety
  import H = ControllerHistory
  import T = ThrashCheck
  import opened ControllerLog
  import AC = AdaptiveClipping

  function Log(q: Queue): (log: seq<AC.Decision>)
    ensures |log| == |q.decisions|
  {
    seq(|q.decisions|, k requires 0 <= k < |q.decisions| => q.decisions[k].decision)
  }

  /** h is the history of the queue's controller so far. */
  ghost predicate Lives(su: Setup, q: Queue, h: History) {
    && su.adaptive.Some?
    && Written(su.adaptive.value.cfg, su.adaptive.value.decay, Log(q), h) && EndsIn(h, q.signal, q.levels)
  }

  ghost predicate SameControl(q: Queue, q': Queue) {
    q'.decisions == q.decisions && q'.signal == q.signal && q'.levels == q.levels
  }

  lemma SameLives(su: Setup, q: Queue, q': Queue, h: History)
    requires Lives(su, q, h) && SameControl(q, q')
    ensures Lives(su, q', h)
  {
    assert Log(q') == Log(q);
  }

  /** A dispatch consults the controller once and logs its decision. */
  lemma DispatchLives(su: Setup, q: Queue, id: Id, h: History) returns (h': History)
    requires Usable(su) && id in q.entries && AC.WellFormed(q.levels) && Lives(su, q, h)
    requires q.signal.last.Some? ==> q.signal.last.value <= su.clock(q.tick)
    ensures Lives(su, Dispatch(su, q, id), h')
  {
    var a := su.adaptive.value;
    var (signal, levels, decision) := Consult(su, q);
    UpdateExtends(a.cfg, a.decay, Log(q), h, q.signal, q.levels, StableDepth(su, q), su.clock(q.tick), decision, signal,
        levels);
    h' := Continued(h, decision, signal, levels);
    assert Log(Dispatch(su, q, id)) == Log(q) + [decision];
  }

  lemma AdmitOneLives(su: Setup, q: Queue, h: History) returns (h': History)
    requires Steady(su.clock) && Usable(su) && Consistent(su, q) && CanAdmit(su, q) && Lives(su, q, h)
    ensures Lives(su, AdmitOne(su, q), h')
  {
    var id, popped := q.waiting[Selected(su, q)], Popped(su, q);
    SameLives(su, q, popped, h);
    if Overdue(su, popped, id) {
      SameLives(su, q, AdmitOne(su, q), h);
      h' := h;
    } else {
      assert su.clock(q.tick) <= su.clock(popped.tick);
      h' := DispatchLives(su, popped, id, h);
    }
  }

  lemma {:induction false} AdmitLives(su: Setup, q: Queue, h: History) returns (h': History)
    requires Steady(su.clock) && Usable(su) && Consistent(su, q) && Lives(su, q, h)
    ensures Lives(su, Admit(su, q), h')
    decreases |q.waiting|
  {
    if CanAdmit(su, q) {
      var one := AdmitOneLives(su, q, h);
      AdmitOneKeeps(su, q);
      AdmitOneIsSound(su, q);
      h' := AdmitLives(su, AdmitOne(su, q), one);
    } else {
      h' := h;
    }
  }

  lemma {:induction false} DrainSameControl(su: Setup, q: Queue)
    ensures SameControl(q, DrainWaiting(su, q))
    decreases |q.waiting|
  {
    if |q.waiting| > 0 {
      DrainSameControl(su, DrainOne(su, q));
    }
  }

  lemma QuietStepSameControl(su: Setup, q: Queue, step: Step)
    requires Usable(su) && Sound(q) && Enabled(su, q, step) && !step.BackendFinish?
    requires step.Submit? ==> !Accepting(q) || Full(su, q)
    ensures SameControl(q, Apply(su, q, step))
  {
    if step.BeginClose? && !q.closed && q.started {
      DrainSameControl(su, Closing(q));
    }
  }

  lemma StepLives(su: Setup, q: Queue, step: Step, h: History) returns (h': History)
    requires ValidSetup(su) && Inv(su, q) && Enabled(su, q, step) && Lives(su, q, h)
    ensures Lives(su, Apply(su, q, step), h')
  {
    if step.BackendFinish? {
      var f := Finish(su, q, step.id, step.outcome);
      FinishedIsConsistent(su, q, step.id, step.outcome);
      SameLives(su, q, f, h);
      h' := AdmitLives(su, f, h);
    } else if step.Submit? && Accepting(q) && !Full(su, q) {
      var a := AddWaiting(q, step.envelope, step.enqueue);
      AddedIsConsistent(su, q, step.envelope, step.enqueue);
      SameLives(su, q, a, h);
      h' := AdmitLives(su, a, h);
    } else {
      QuietStepSameControl(su, q, step);
      SameLives(su, q, Apply(su, q, step), h);
      h' := h;
    }
  }

  /**
   In every run of a new queue with a controller there is one controller history that wrote the decision log and
   stands where the queue's controller stands.
  */
  lemma {:induction false} QueueLogsAreHistories(su: Setup, states: seq<Queue>, steps: seq<Step>, n: nat)
      returns (h: History)
    requires IsRun(su, states, steps) && su.adaptive.Some? && states[0] == EMPTY && n <= |steps|
    ensures Lives(su, states[n], h)
    ensures H.EarnedHistory(su.adaptive.value.cfg, h.ticks, H.Levels(h.states))
    decreases n
  {
    var a := su.adaptive.value;
    if n == 0 {
      NothingWritten(a.cfg, a.decay);
      h := BEGINNING;
      assert Log(EMPTY) == [];
    } else {
      var before := QueueLogsAreHistories(su, states, steps, n - 1);
      h := NextLives(su, states, steps, n - 1, before);
    }
    LogsAreEarned(a.cfg, a.decay, Log(states[n]), h);
  }

  lemma NextLives(su: Setup, states: seq<Queue>, steps: seq<Step>, k: nat, h: History) returns (h': History)
    requires IsRun(su, states, steps) && states[0] == EMPTY && k < |steps| && Lives(su, states[k], h)
    ensures Lives(su, states[k + 1], h')
  {
    QueueIsSafe(su, states, steps, k);
    assert StepsAt(su, states, steps, k);
    h' := StepLives(su, states[k], steps[k], h);
  }

  /** On any sub-log of a run of the queue, the thrash gate never reports a violated hold. */
  lemma QueueLogsNeverThrash(
    su: Setup, states: seq<Queue>, steps: seq<Step>, n: nat, facts: seq<T.Fact>, at: seq<nat>)
    requires IsRun(su, states, steps) && su.adaptive.Some? && states[0] == EMPTY && n <= |steps|
    requires |at| == |facts| && forall i, j :: 0 <= i < j < |at| ==> at[i] < at[j]
    requires forall i :: 0 <= i < |facts| ==> at[i] < |Log(states[n])| && facts[i] == FactOf(0, Log(states[n])[at[i]])
    ensures !T.Hasty(T.Transitions(facts), |T.Transitions(facts)|,
                     su.adaptive.value.cfg.tightenHold, su.adaptive.value.cfg.relaxHold)
  {
    var h := QueueLogsAreHistories(su, states, steps, n);
    WrittenLogsNeverThrash(su.adaptive.value.cfg, su.adaptive.value.decay, [Episode(Log(states[n]), h)], facts, at);
  }
}
