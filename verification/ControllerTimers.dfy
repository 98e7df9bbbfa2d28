/** The shape the controller's timers keep in every run. */
module ControllerTimers {
  import opened AdaptiveClipping
  import opened ControllerHistory
  import opened ControllerOrder

  /**
   Only levels above the current one have a running hold; a tighter level's hold never started before a looser
   one's; and the relax hold never runs beside any of them.
  */
  ghost predicate Nested(s: LevelState)
    requires WellFormed(s)
  {
    && (forall i :: 0 <= i < TIGHTEST && s.tightenSince[i].Some? ==> s.level <= i && s.relaxSince.None?)
    && (forall i, j :: s.level <= i < j < TIGHTEST && s.tightenSince[j].Some? ==>
          s.tightenSince[i].Some? && s.tightenSince[i].value <= s.tightenSince[j].value)
    && (s.relaxSince.Some? ==> s.level > 0)
  }

  /** The holds armed in an update are nested whatever the pressure. */
  lemma ArmedAreNested(cfg: Config, s: LevelState, p: real, now: real, i: nat, j: nat)
    requires ValidConfig(cfg) && WellFormed(s) && Nested(s) && Past(s, now)
    requires s.level <= i < j < TIGHTEST && Armed(cfg, s, p, now, j).Some?
    ensures Armed(cfg, s, p, now, i).Some? && Armed(cfg, s, p, now, i).value <= Armed(cfg, s, p, now, j).value
  {
    assert cfg.tighten[i] < cfg.tighten[j];
  }

  /** When a level's hold has elapsed, so has that of every level in between: elapsed levels are contiguous. */
  lemma ElapsedAreContiguous(cfg: Config, s: LevelState, p: real, now: real, i: nat, j: nat)
    requires ValidConfig(cfg) && WellFormed(s) && Nested(s) && Past(s, now)
    requires s.level <= i <= j < TIGHTEST && Elapsed(cfg, s, p, now, j)
    ensures Elapsed(cfg, s, p, now, i)
  {
    if i < j {
      ArmedAreNested(cfg, s, p, now, i, j);
    }
  }

  /** Pressure low enough to relax arms no tighten hold. */
  lemma RelaxingArmsNothing(cfg: Config, s: LevelState, p: real, now: real, i: nat)
    requires ValidConfig(cfg) && WellFormed(s) && Relaxing(cfg, s.level, p) && i < TIGHTEST
    ensures Armed(cfg, s, p, now, i).None?
  {
    if s.level <= i {
      assert cfg.relax[s.level - 1] < cfg.tighten[s.level - 1];
      assert s.level - 1 < i && cfg.tighten[s.level - 1] < cfg.tighten[i];
    }
  }

  lemma StepKeepsNesting(cfg: Config, s: LevelState, p: real, now: real, s': LevelState)
    requires ValidConfig(cfg) && WellFormed(s) && Nested(s) && Past(s, now) && s' == Step(cfg, s, p, now)
    ensures Nested(s')
  {
    forall i, j | s.level <= i < j < TIGHTEST && Armed(cfg, s, p, now, j).Some?
      ensures Armed(cfg, s, p, now, i).Some? && Armed(cfg, s, p, now, i).value <= Armed(cfg, s, p, now, j).value
    {
      ArmedAreNested(cfg, s, p, now, i, j);
    }
    if Relaxing(cfg, s.level, p) {
      forall i | 0 <= i < TIGHTEST ensures Armed(cfg, s, p, now, i).None? {
        RelaxingArmsNothing(cfg, s, p, now, i);
      }
    }
    var b := HighestElapsed(cfg, s, p, now, |cfg.tighten|);
    assert b > 0 ==> s.level < b;
  }

  /** Every state of every run is nested. */
  lemma {:induction false} RunsStayNested(cfg: Config, ticks: seq<Tick>, states: seq<LevelState>, k: nat)
    requires IsRun(cfg, ticks, states) && k <= |ticks|
    ensures Nested(states[k])
    ensures k > 0 ==> Past(states[k], ticks[k - 1].now)
  {
    if k > 0 {
      var n := k - 1;
      RunsStayNested(cfg, ticks, states, n);
      assert StepsAt(cfg, ticks, states, n);
      assert Past(states[n], ticks[n].now);
      StepKeepsNesting(cfg, states[n], ticks[n].p, ticks[n].now, states[k]);
      StepKeepsPast(cfg, states[n], ticks[n].p, ticks[n].now);
    }
  }
}
