/**
 Two runs of the controller with the same configuration and update times: deeper queues never select a
 looser cap.
*/
module ControllerOrder {
  import opened Wrappers
  import opened AdaptiveClipping
  import opened ControllerHistory
  import opened DepthSignal

  /** Every running timer was started at or before `now`. */
  ghost predicate Past(s: LevelState, now: real) {
    && WellFormed(s)
    && (forall i :: 0 <= i < TIGHTEST && s.tightenSince[i].Some? ==> s.tightenSince[i].value <= now)
    && (s.relaxSince.Some? ==> s.relaxSince.value <= now)
  }

  /**
   b is at least as tight as a: its level is not looser, its tighten timers started no later, and at
   equal levels its relax timer started no earlier.
   */
  ghost predicate AtLeastAsTight(b: LevelState, a: LevelState)
    requires WellFormed(a) && WellFormed(b)
  {
    && a.level <= b.level
    && (forall i :: b.level <= i < TIGHTEST && a.tightenSince[i].Some? ==>
          b.tightenSince[i].Some? && b.tightenSince[i].value <= a.tightenSince[i].value)
    && (a.level == b.level && b.relaxSince.Some? ==>
          a.relaxSince.Some? && a.relaxSince.value <= b.relaxSince.value)
  }

  lemma StepKeepsPast(cfg: Config, s: LevelState, p: real, now: real)
    requires ValidConfig(cfg) && Past(s, now)
    ensures Past(Step(cfg, s, p, now), now)
  {
    StepEffect(cfg, s, p, now);
  }

  lemma LevelsStayOrdered(cfg: Config, a: LevelState, b: LevelState, pa: real, pb: real, now: real, a': LevelState,
      b': LevelState)
    requires ValidConfig(cfg) && Past(a, now) && Past(b, now) && AtLeastAsTight(b, a) && pa <= pb
    requires WellFormed(a') && WellFormed(b') && Effect(cfg, a, pa, now, a') && Effect(cfg, b, pb, now, b')
    ensures a'.level <= b'.level
  {
    if a'.level > a.level {
      assert pa >= cfg.tighten[a'.level - 1];
    }
    if b'.level < b.level {
      EasingExcludesPressing(cfg, b.level, pb);
    } else if a'.level > b.level {
      RiseIsMatched(cfg, a, b, pa, pb, now, a'.level);
    }
  }

  /** A level whose hold elapses in the looser run has elapsed in the tighter one. */
  lemma RiseIsMatched(cfg: Config, a: LevelState, b: LevelState, pa: real, pb: real, now: real, l: nat)
    requires ValidConfig(cfg) && Past(a, now) && Past(b, now) && AtLeastAsTight(b, a) && pa <= pb
    requires b.level < l <= TIGHTEST && Elapsed(cfg, a, pa, now, l - 1)
    ensures Elapsed(cfg, b, pb, now, l - 1)
  {
  }

  lemma TimersStayOrdered(cfg: Config, a: LevelState, b: LevelState, pa: real, pb: real, now: real, a': LevelState,
      b': LevelState, i: nat)
    requires ValidConfig(cfg) && Past(a, now) && Past(b, now) && AtLeastAsTight(b, a) && pa <= pb
    requires WellFormed(a') && WellFormed(b') && Effect(cfg, a, pa, now, a') && Effect(cfg, b, pb, now, b')
    requires a'.level <= b'.level <= i < TIGHTEST && a'.tightenSince[i].Some?
    ensures b'.tightenSince[i].Some? && b'.tightenSince[i].value <= a'.tightenSince[i].value
  {
    assert pa >= cfg.tighten[i] && a'.tightenSince[i] == Armed(cfg, a, pa, now, i);
    if b'.level < b.level {
      EasingExcludesPressing(cfg, b.level, pb);
    }
  }

  /** One update of both runs keeps the second at least as tight as the first. */
  lemma StepKeepsOrder(cfg: Config, a: LevelState, b: LevelState, pa: real, pb: real, now: real, a': LevelState,
      b': LevelState)
    requires ValidConfig(cfg) && Past(a, now) && Past(b, now) && AtLeastAsTight(b, a) && pa <= pb
    requires WellFormed(a') && WellFormed(b') && Effect(cfg, a, pa, now, a') && Effect(cfg, b, pb, now, b')
    ensures AtLeastAsTight(b', a')
  {
    LevelsStayOrdered(cfg, a, b, pa, pb, now, a', b');
    forall i | b'.level <= i < TIGHTEST && a'.tightenSince[i].Some?
      ensures b'.tightenSince[i].Some? && b'.tightenSince[i].value <= a'.tightenSince[i].value
    {
      TimersStayOrdered(cfg, a, b, pa, pb, now, a', b', i);
    }
    if a'.level == b'.level && b'.relaxSince.Some? {
      LowIsRelaxing(cfg, b.level, pa);
      EasingExcludesPressing(cfg, b.level, pa);
    }
  }

  lemma {:induction false} RunKeepsOrder(cfg: Config, ta: seq<Tick>, tb: seq<Tick>, sa: seq<LevelState>,
      sb: seq<LevelState>, k: nat)
    requires IsRun(cfg, ta, sa) && IsRun(cfg, tb, sb) && |ta| == |tb| && k <= |ta|
    requires forall i :: 0 <= i < |ta| ==> ta[i].now == tb[i].now && ta[i].p <= tb[i].p
    ensures AtLeastAsTight(sb[k], sa[k])
    ensures k > 0 ==> Past(sa[k], ta[k - 1].now) && Past(sb[k], ta[k - 1].now)
  {
    if k > 0 {
      RunKeepsOrder(cfg, ta, tb, sa, sb, k - 1);
      var x, y := ta[k - 1], tb[k - 1];
      assert k > 1 ==> ta[k - 2].now <= x.now;
      assert StepsAt(cfg, ta, sa, k - 1) && StepsAt(cfg, tb, sb, k - 1);
      StepEffect(cfg, sa[k - 1], x.p, x.now);
      StepEffect(cfg, sb[k - 1], y.p, x.now);
      StepKeepsOrder(cfg, sa[k - 1], sb[k - 1], x.p, y.p, x.now, sa[k], sb[k]);
      StepKeepsPast(cfg, sa[k - 1], x.p, x.now);
      StepKeepsPast(cfg, sb[k - 1], y.p, x.now);
    }
  }

  lemma {:induction false} AveragesStayOrdered(decay: real -> real, ra: seq<Report>, rb: seq<Report>, k: nat)
    requires IsDecay(decay) && Timely(ra) && |ra| == |rb| && k <= |ra|
    requires forall i :: 0 <= i < |ra| ==> ra[i].now == rb[i].now && ra[i].q <= rb[i].q
    ensures SignalAfter(decay, ra, k).qBar <= SignalAfter(decay, rb, k).qBar
    ensures PressureAfter(decay, ra, k) <= PressureAfter(decay, rb, k)
  {
    if k > 1 {
      AveragesStayOrdered(decay, ra, rb, k - 1);
      var a, b := SignalAfter(decay, ra, k - 1), SignalAfter(decay, rb, k - 1);
      MixGrows(decay(ra[k - 1].now - ra[k - 2].now), a.qBar, b.qBar, a.qInst as real, b.qInst as real);
    }
  }

  /** A cap at least as tight: no clipping is the loosest. */
  predicate CapAtMost(tight: Option<int>, loose: Option<int>) {
    loose.None? || (tight.Some? && tight.value <= loose.value)
  }

  /** Deeper queues at the same times give, at every update, deeper averages, higher levels, tighter caps. */
  lemma DeeperQueuesNeverLoosen(
    cfg: Config, decay: real -> real, ra: seq<Report>, rb: seq<Report>, sa: seq<LevelState>, sb: seq<LevelState>,
    k: nat)
    requires IsDecay(decay) && |ra| == |rb| && k <= |ra|
    requires forall i :: 0 <= i < |ra| ==> ra[i].now == rb[i].now && ra[i].q <= rb[i].q
    requires Timely(ra) && IsRun(cfg, Ticks(decay, ra), sa) && IsRun(cfg, Ticks(decay, rb), sb)
    ensures SignalAfter(decay, ra, k).qBar <= SignalAfter(decay, rb, k).qBar
    ensures PressureAfter(decay, ra, k) <= PressureAfter(decay, rb, k)
    ensures sa[k].level <= sb[k].level
    ensures CapAtMost(Cap(cfg, sb[k].level), Cap(cfg, sa[k].level))
  {
    var ta, tb := Ticks(decay, ra), Ticks(decay, rb);
    TicksAreOrdered(decay, ra, rb);
    AveragesStayOrdered(decay, ra, rb, k);
    RunKeepsOrder(cfg, ta, tb, sa, sb, k);
  }

  lemma TicksAreOrdered(decay: real -> real, ra: seq<Report>, rb: seq<Report>)
    requires IsDecay(decay) && Timely(ra) && |ra| == |rb|
    requires forall i :: 0 <= i < |ra| ==> ra[i].now == rb[i].now && ra[i].q <= rb[i].q
    ensures forall i :: 0 <= i < |ra| ==>
              Ticks(decay, ra)[i].now == Ticks(decay, rb)[i].now && Ticks(decay, ra)[i].p <= Ticks(decay, rb)[i].p
  {
    var ta, tb := Ticks(decay, ra), Ticks(decay, rb);
    forall i | 0 <= i < |ta| ensures ta[i].now == tb[i].now && ta[i].p <= tb[i].p {
      AveragesStayOrdered(decay, ra, rb, i + 1);
      TickAt(decay, ra, i);
      TickAt(decay, rb, i);
    }
  }
}
