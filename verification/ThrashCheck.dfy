/**
 The thrash gate over a decision log, and the proof that its hold check can never fire on decisions the
 controller made, however the log was filtered.
*/
module ThrashCheck {
  import opened Wrappers
  import opened AdaptiveClipping
  import opened ControllerHistory
  import opened ControllerGuarantees

  datatype Fact = Fact(repetition: nat, time: real, oldLevel: nat, newLevel: nat)

  datatype Reverse = Reverse(fromTighten: bool, interval: real, required: real)

  datatype Report = Report(transitions: nat, reverses: seq<Reverse>, cycles: seq<real>)

  datatype GateError = NoDispatches | HoldViolated | TooManySwitches

  predicate IsTransition(f: Fact) {
    f.newLevel != f.oldLevel
  }

  function Transitions(facts: seq<Fact>): (ts: seq<Fact>) {
    if |facts| == 0 then []
    else
      var ts := Transitions(facts[..|facts| - 1]);
      if IsTransition(facts[|facts| - 1]) then ts + [facts[|facts| - 1]] else ts
  }

  predicate Rises(f: Fact) {
    f.newLevel > f.oldLevel
  }

  /** Two consecutive transitions of one repetition in opposite directions. */
  predicate Reverses(a: Fact, b: Fact) {
    a.repetition == b.repetition && Rises(a) != Rises(b)
  }

  function ReverseOf(a: Fact, b: Fact, tightenHold: real, relaxHold: real): Reverse {
    Reverse(Rises(a), b.time - a.time, if Rises(a) then relaxHold else tightenHold)
  }

  /** The reversals among the first n transitions, in order. */
  function ReversesUpTo(ts: seq<Fact>, n: nat, tightenHold: real, relaxHold: real): seq<Reverse>
    requires n <= |ts|
  {
    if n < 2 then []
    else
      var before := ReversesUpTo(ts, n - 1, tightenHold, relaxHold);
      if !Reverses(ts[n - 2], ts[n - 1]) then before
      else before + [ReverseOf(ts[n - 2], ts[n - 1], tightenHold, relaxHold)]
  }

  predicate IsCycle(a: Fact, b: Fact, c: Fact) {
    a.repetition == b.repetition == c.repetition && Rises(a) && b.newLevel < b.oldLevel && Rises(c)
  }

  function CyclesUpTo(ts: seq<Fact>, n: nat): seq<real>
    requires n <= |ts|
  {
    if n < 3 then []
    else
      var before := CyclesUpTo(ts, n - 1);
      if IsCycle(ts[n - 3], ts[n - 2], ts[n - 1]) then before + [ts[n - 1].time - ts[n - 3].time] else before
  }

  /** Some reversal came sooner than the hold it had to respect. */
  ghost predicate Hasty(ts: seq<Fact>, n: nat, tightenHold: real, relaxHold: real)
    requires n <= |ts|
  {
    exists i :: 0 < i < n && Reverses(ts[i - 1], ts[i])
        && ts[i].time - ts[i - 1].time < (if Rises(ts[i - 1]) then relaxHold else tightenHold)
  }

  method CheckThrash(facts: seq<Fact>, dispatches: int, tightenHold: real, relaxHold: real)
      returns (r: Result<Report, GateError>)
    ensures r == Result.Failure(NoDispatches) <==> dispatches <= 0
    ensures r == Result.Failure(HoldViolated) <==>
              dispatches > 0 && Hasty(Transitions(facts), |Transitions(facts)|, tightenHold, relaxHold)
    ensures r == Result.Failure(TooManySwitches) <==>
              var ts := Transitions(facts);
              dispatches > 0 && !Hasty(ts, |ts|, tightenHold, relaxHold) && |ts| as real > dispatches as real * 0.1
    ensures r.Success? ==>
              var ts := Transitions(facts);
              r.value == Report(|ts|, ReversesUpTo(ts, |ts|, tightenHold, relaxHold), CyclesUpTo(ts, |ts|))
  {
    if dispatches <= 0 {
      return Result.Failure(NoDispatches);
    }
    var ts := Transitions(facts);
    var reverses, violated := [], false;
    var n := if |ts| == 0 then 0 else 1;
    while n < |ts|
      invariant n <= |ts| && (|ts| > 0 ==> n > 0)
      invariant reverses == ReversesUpTo(ts, n, tightenHold, relaxHold)
      invariant violated <==> Hasty(ts, n, tightenHold, relaxHold)
    {
      var previous, current := ts[n - 1], ts[n];
      ghost var was := violated;
      if Reverses(previous, current) {
        var reverse := ReverseOf(previous, current, tightenHold, relaxHold);
        reverses := reverses + [reverse];
        if reverse.interval < reverse.required {
          violated := true;
        }
      }
      n := n + 1;
      assert was ==> Hasty(ts, n, tightenHold, relaxHold);
    }
    var cycles := Cycles(ts);
    if violated {
      return Result.Failure(HoldViolated);
    }
    if |ts| as real > dispatches as real * 0.1 {
      return Result.Failure(TooManySwitches);
    }
    r := Result.Success(Report(|ts|, reverses, cycles));
  }

  method Cycles(ts: seq<Fact>) returns (cycles: seq<real>)
    ensures cycles == CyclesUpTo(ts, |ts|)
  {
    cycles := [];
    var n := if |ts| < 2 then |ts| else 2;
    while n < |ts|
      invariant n <= |ts| && (|ts| >= 2 ==> n >= 2)
      invariant cycles == CyclesUpTo(ts, n)
    {
      if IsCycle(ts[n - 2], ts[n - 1], ts[n]) {
        cycles := cycles + [ts[n].time - ts[n - 2].time];
      }
      n := n + 1;
    }
  }

  // ---------------------------------------------------------------- controller logs never violate a hold

  /** The updates of one repetition, each run by a fresh controller, and the levels they went through. */
  datatype Repetition = Repetition(ticks: seq<Tick>, levels: seq<nat>)

  /** The logged fact of update k of a repetition. */
  function FactAt(runs: seq<Repetition>, repetition: nat, k: nat): Fact
    requires repetition < |runs| && k < |runs[repetition].ticks| && k + 1 < |runs[repetition].levels|
  {
    var run := runs[repetition];
    Fact(repetition, run.ticks[k].now, run.levels[k], run.levels[k + 1])
  }

  /** facts[n] is update at[n] of its repetition; updates of a repetition keep their order. */
  ghost predicate DrawnFrom(cfg: Config, runs: seq<Repetition>, facts: seq<Fact>, at: seq<nat>) {
    && (forall i :: 0 <= i < |runs| ==> EarnedHistory(cfg, runs[i].ticks, runs[i].levels))
    && |at| == |facts|
    && (forall n :: 0 <= n < |facts| ==>
          && facts[n].repetition < |runs| && at[n] < |runs[facts[n].repetition].ticks|
          && facts[n] == FactAt(runs, facts[n].repetition, at[n]))
    && (forall n, m :: 0 <= n < m < |facts| && facts[n].repetition == facts[m].repetition ==> at[n] < at[m])
  }

  /** Any later transition of the same repetition in the opposite direction respects its hold. */
  ghost predicate Unhurried(facts: seq<Fact>, tightenHold: real, relaxHold: real) {
    forall n, m ::
      (0 <= n < m < |facts| && IsTransition(facts[n]) && IsTransition(facts[m]) && Reverses(facts[n], facts[m])) ==>
      facts[m].time - facts[n].time >= if Rises(facts[n]) then relaxHold else tightenHold
  }

  lemma DrawnFactsAreUnhurried(cfg: Config, runs: seq<Repetition>, facts: seq<Fact>, at: seq<nat>)
    requires DrawnFrom(cfg, runs, facts, at)
    ensures Unhurried(facts, cfg.tightenHold, cfg.relaxHold)
  {
    forall n, m | 0 <= n < m < |facts| && IsTransition(facts[n]) && IsTransition(facts[m])
        && Reverses(facts[n], facts[m])
      ensures facts[m].time - facts[n].time >= if Rises(facts[n]) then cfg.relaxHold else cfg.tightenHold
    {
      var run := runs[facts[n].repetition];
      if Rises(facts[n]) {
        RelaxIsSpaced(cfg, run.ticks, run.levels, at[n], at[m]);
      } else {
        TightenIsSpaced(cfg, run.ticks, run.levels, at[n], at[m]);
      }
    }
  }

  /** Keeping only the transitions keeps a log unhurried. */
  lemma {:induction false} TransitionsStayUnhurried(facts: seq<Fact>, tightenHold: real, relaxHold: real)
    requires Unhurried(facts, tightenHold, relaxHold)
    ensures Unhurried(Transitions(facts), tightenHold, relaxHold)
    ensures forall t :: t in Transitions(facts) ==> t in facts && IsTransition(t)
  {
    if |facts| > 0 {
      var k := |facts| - 1;
      var before := facts[..k];
      TransitionsStayUnhurried(before, tightenHold, relaxHold);
      var ts := Transitions(before);
      forall n | 0 <= n < |ts| && IsTransition(facts[k]) && Reverses(ts[n], facts[k])
        ensures facts[k].time - ts[n].time >= if Rises(ts[n]) then relaxHold else tightenHold
      {
        assert ts[n] in before;
        var i :| 0 <= i < k && facts[i] == ts[n];
      }
    }
  }

  /** On any sub-log of controller runs, the gate never reports a violated hold. */
  lemma ControllerNeverThrashes(cfg: Config, runs: seq<Repetition>, facts: seq<Fact>, at: seq<nat>)
    requires DrawnFrom(cfg, runs, facts, at)
    ensures !Hasty(Transitions(facts), |Transitions(facts)|, cfg.tightenHold, cfg.relaxHold)
  {
    DrawnFactsAreUnhurried(cfg, runs, facts, at);
    TransitionsStayUnhurried(facts, cfg.tightenHold, cfg.relaxHold);
    var ts := Transitions(facts);
    assert forall i :: 0 <= i < |ts| ==> ts[i] in ts;
  }
}
