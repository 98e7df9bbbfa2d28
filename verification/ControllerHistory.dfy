/**
 Whole runs of the level machine, explained without timers.

 `TightenDue` and `RelaxDue` say, from the recorded pressures and levels alone, when a level change is
 earned. `RunsAreEarned` proves that the timer machine changes level exactly then; the evidence,
 anti-thrash and timing guarantees are all proved from that characterization.
*/
module ControllerHistory {
  import opened Wrappers
  import opened AdaptiveClipping

  /** One update: its clock reading and the pressure it acted on. */
  datatype Tick = Tick(now: real, p: real)

  ghost predicate Monotonic(ticks: seq<Tick>) {
    forall i, j :: 0 <= i <= j < |ticks| ==> ticks[i].now <= ticks[j].now
  }

  ghost predicate Legal(cfg: Config, ticks: seq<Tick>) {
    ValidConfig(cfg) && Monotonic(ticks)
  }

  /** Update k takes the machine from states[k] to states[k+1]. */
  ghost predicate StepsAt(cfg: Config, ticks: seq<Tick>, states: seq<LevelState>, k: nat)
    requires Shaped(cfg) && |states| == |ticks| + 1 && k < |ticks|
  {
    WellFormed(states[k]) && states[k + 1] == Step(cfg, states[k], ticks[k].p, ticks[k].now)
  }

  /** The states of a run: before the first update, and after each one. */
  ghost predicate IsRun(cfg: Config, ticks: seq<Tick>, states: seq<LevelState>) {
    && Legal(cfg, ticks) && |states| == |ticks| + 1 && states[0] == INITIAL
    && (forall k :: 0 <= k < |states| ==> WellFormed(states[k]))
    && (forall k :: 0 <= k < |ticks| ==> StepsAt(cfg, ticks, states, k))
  }

  function Levels(states: seq<LevelState>): (lv: seq<nat>)
    ensures |lv| == |states| && forall k :: 0 <= k < |lv| ==> lv[k] == states[k].level
  {
    seq(|states|, k requires 0 <= k < |states| => states[k].level)
  }

  /** Every sequence of updates with a monotonic clock has a run. */
  lemma {:induction false} RunsExist(cfg: Config, ticks: seq<Tick>) returns (states: seq<LevelState>)
    requires Legal(cfg, ticks)
    ensures IsRun(cfg, ticks, states)
  {
    if |ticks| == 0 {
      states := [INITIAL];
    } else {
      var n := |ticks| - 1;
      var before := RunsExist(cfg, ticks[..n]);
      states := before + [Step(cfg, before[n], ticks[n].p, ticks[n].now)];
      forall k | 0 <= k < |ticks| ensures StepsAt(cfg, ticks, states, k) {
        assert k < n ==> StepsAt(cfg, ticks[..n], before, k);
      }
    }
  }

  // ---------------------------------------------------------------- evidence

  ghost predicate Recorded(ticks: seq<Tick>, lv: seq<nat>) {
    |lv| == |ticks| + 1 && forall k :: 0 <= k < |lv| ==> lv[k] <= TIGHTEST
  }

  /** Updates j..k-1 all saw pressure for level b while a looser level was in force. */
  ghost predicate Pressing(cfg: Config, ticks: seq<Tick>, lv: seq<nat>, j: nat, k: nat, b: nat)
    requires Shaped(cfg) && Recorded(ticks, lv) && k <= |ticks| && 1 <= b <= TIGHTEST
  {
    forall m :: j <= m < k ==> ticks[m].p >= cfg.tighten[b - 1] && lv[m] < b
  }

  /** Updates j..k-1 all saw pressure below the relax threshold of level l while l was in force. */
  ghost predicate Easing(cfg: Config, ticks: seq<Tick>, lv: seq<nat>, j: nat, k: nat, l: nat)
    requires Shaped(cfg) && Recorded(ticks, lv) && k <= |ticks| && 1 <= l <= TIGHTEST
  {
    forall m :: j <= m < k ==> ticks[m].p < cfg.relax[l - 1] && lv[m] == l
  }

  /** Update k completes an unbroken streak for level b that is at least tightenHold long. */
  ghost predicate TightenDue(cfg: Config, ticks: seq<Tick>, lv: seq<nat>, k: nat, b: nat)
    requires Shaped(cfg) && Recorded(ticks, lv) && k < |ticks| && 1 <= b <= TIGHTEST
  {
    exists j :: 0 <= j <= k && ticks[k].now - ticks[j].now >= cfg.tightenHold && Pressing(cfg, ticks, lv, j, k + 1, b)
  }

  /** Update k completes an unbroken low-pressure streak at the current level, relaxHold long. */
  ghost predicate RelaxDue(cfg: Config, ticks: seq<Tick>, lv: seq<nat>, k: nat)
    requires Shaped(cfg) && Recorded(ticks, lv) && k < |ticks|
  {
    && lv[k] > 0
    && exists j :: 0 <= j <= k && ticks[k].now - ticks[j].now >= cfg.relaxHold
        && Easing(cfg, ticks, lv, j, k + 1, lv[k])
  }

  /**
   Update k moves the level exactly as its history earns it: up to the tightest level whose streak is
   due, else down by one if relaxing is due, else nowhere.
   */
  ghost predicate Earned(cfg: Config, ticks: seq<Tick>, lv: seq<nat>, k: nat)
    requires Shaped(cfg) && Recorded(ticks, lv) && k < |ticks|
  {
    && (forall b :: 1 <= b <= TIGHTEST ==> (TightenDue(cfg, ticks, lv, k, b) <==> lv[k] < b <= lv[k + 1]))
    && (RelaxDue(cfg, ticks, lv, k) <==> lv[k + 1] < lv[k])
    && lv[k] <= lv[k + 1] + 1
  }

  ghost predicate EarnedHistory(cfg: Config, ticks: seq<Tick>, lv: seq<nat>) {
    && Legal(cfg, ticks) && Recorded(ticks, lv)
    && lv[0] == 0
    && forall k :: 0 <= k < |ticks| ==> Earned(cfg, ticks, lv, k)
  }

  // ---------------------------------------------------------------- what the timers mean

  /** A running timer of level b holds the start of the longest streak for b that is still unbroken. */
  ghost predicate TightenTimerMeans(cfg: Config, ticks: seq<Tick>, lv: seq<nat>, k: nat, b: nat, s: LevelState)
    requires Shaped(cfg) && Recorded(ticks, lv) && k <= |ticks| && 1 <= b <= TIGHTEST && WellFormed(s)
  {
    var since := s.tightenSince[b - 1];
    && (b <= lv[k] ==> since.None?)
    && (since.Some? ==> exists j :: 0 <= j < k && ticks[j].now == since.value && Pressing(cfg, ticks, lv, j, k, b))
    && (lv[k] < b ==> forall j :: 0 <= j < k && Pressing(cfg, ticks, lv, j, k, b) ==>
        since.Some? && since.value <= ticks[j].now)
  }

  ghost predicate RelaxTimerMeans(cfg: Config, ticks: seq<Tick>, lv: seq<nat>, k: nat, since: Option<real>)
    requires Shaped(cfg) && Recorded(ticks, lv) && k <= |ticks|
  {
    if lv[k] == 0 then since.None?
    else
      && (since.Some? ==> exists j :: 0 <= j < k && ticks[j].now == since.value && Easing(cfg, ticks, lv, j, k, lv[k]))
      && (forall j :: 0 <= j < k && Easing(cfg, ticks, lv, j, k, lv[k]) ==> since.Some? && since.value <= ticks[j].now)
  }

  lemma TightenTimerStep(cfg: Config, ticks: seq<Tick>, lv: seq<nat>, k: nat, b: nat, s: LevelState, s': LevelState)
    requires Shaped(cfg) && Monotonic(ticks) && Recorded(ticks, lv) && k < |ticks| && 1 <= b <= TIGHTEST
    requires WellFormed(s) && WellFormed(s') && s.level == lv[k] && TightenTimerMeans(cfg, ticks, lv, k, b, s)
    requires s'.tightenSince[b - 1] == if b <= lv[k + 1] then None else Armed(cfg, s, ticks[k].p, ticks[k].now, b - 1)
    ensures TightenTimerMeans(cfg, ticks, lv, k + 1, b, s')
  {
    var since' := s'.tightenSince[b - 1];
    if since'.Some? {
      ExtendPressing(cfg, ticks, lv, k, b, s);
    }
    forall j | 0 <= j < k + 1 && Pressing(cfg, ticks, lv, j, k + 1, b) && lv[k + 1] < b
      ensures since'.Some? && since'.value <= ticks[j].now
    {
      assert ticks[k].p >= cfg.tighten[b - 1] && lv[k] < b;
      assert Pressing(cfg, ticks, lv, j, k, b);
    }
  }

  /** An update that presses for b extends the streak b's timer holds, or starts one. */
  lemma ExtendPressing(cfg: Config, ticks: seq<Tick>, lv: seq<nat>, k: nat, b: nat, s: LevelState)
    requires Shaped(cfg) && Recorded(ticks, lv) && k < |ticks| && 1 <= b <= TIGHTEST
    requires WellFormed(s) && s.level == lv[k] && TightenTimerMeans(cfg, ticks, lv, k, b, s)
    requires Armed(cfg, s, ticks[k].p, ticks[k].now, b - 1).Some?
    ensures exists j :: && 0 <= j < k + 1 && ticks[j].now == Armed(cfg, s, ticks[k].p, ticks[k].now, b - 1).value
                        && Pressing(cfg, ticks, lv, j, k + 1, b)
  {
    var since := s.tightenSince[b - 1];
    if since.Some? {
      var j :| 0 <= j < k && ticks[j].now == since.value && Pressing(cfg, ticks, lv, j, k, b);
      assert Pressing(cfg, ticks, lv, j, k + 1, b);
    } else {
      assert Pressing(cfg, ticks, lv, k, k + 1, b);
    }
  }

  lemma RelaxTimerStep(cfg: Config, ticks: seq<Tick>, lv: seq<nat>, k: nat, s: LevelState, since': Option<real>)
    requires Legal(cfg, ticks) && Recorded(ticks, lv) && k < |ticks|
    requires WellFormed(s) && s.level == lv[k] && RelaxTimerMeans(cfg, ticks, lv, k, s.relaxSince)
    requires since' == if lv[k + 1] != lv[k] then None
        else KeptRelax(cfg, lv[k], s.relaxSince, ticks[k].p, ticks[k].now)
    ensures RelaxTimerMeans(cfg, ticks, lv, k + 1, since')
  {
    var l := lv[k + 1];
    if since'.Some? {
      ExtendEasing(cfg, ticks, lv, k, s.relaxSince);
    }
    forall j | l > 0 && 0 <= j < k + 1 && Easing(cfg, ticks, lv, j, k + 1, l)
      ensures since'.Some? && since'.value <= ticks[j].now
    {
      assert lv[k] == l && ticks[k].p < cfg.relax[l - 1];
      assert Easing(cfg, ticks, lv, j, k, l);
      LowIsRelaxing(cfg, l, ticks[k].p);
    }
  }

  /** An update that eases extends the streak its relax timer holds, or starts one. */
  lemma ExtendEasing(cfg: Config, ticks: seq<Tick>, lv: seq<nat>, k: nat, since: Option<real>)
    requires Shaped(cfg) && Recorded(ticks, lv) && k < |ticks| && RelaxTimerMeans(cfg, ticks, lv, k, since)
    requires Relaxing(cfg, lv[k], ticks[k].p)
    ensures exists j :: && 0 <= j < k + 1 && ticks[j].now == (if since.Some? then since.value else ticks[k].now)
                        && Easing(cfg, ticks, lv, j, k + 1, lv[k])
  {
    if since.Some? {
      var j :| 0 <= j < k && ticks[j].now == since.value && Easing(cfg, ticks, lv, j, k, lv[k]);
      assert Easing(cfg, ticks, lv, j, k + 1, lv[k]);
    } else {
      assert Easing(cfg, ticks, lv, k, k + 1, lv[k]);
    }
  }

  /** Pressure below the relax threshold of l is below every tighten threshold from l upwards. */
  lemma EasingExcludesPressing(cfg: Config, l: nat, p: real)
    requires ValidConfig(cfg) && 1 <= l <= TIGHTEST && p < cfg.relax[l - 1]
    ensures forall i :: l - 1 <= i < TIGHTEST ==> p < cfg.tighten[i]
  {
    forall i | l - 1 <= i < TIGHTEST ensures p < cfg.tighten[i] {
      assert cfg.relax[l - 1] < cfg.tighten[l - 1];
    }
  }

  lemma LowIsRelaxing(cfg: Config, l: nat, p: real)
    requires ValidConfig(cfg) && 1 <= l <= TIGHTEST && p < cfg.relax[l - 1]
    ensures Relaxing(cfg, l, p)
  {
    EasingExcludesPressing(cfg, l, p);
  }

  /** One update from s to s', timer by timer and level by level. */
  ghost predicate Effect(cfg: Config, s: LevelState, p: real, now: real, s': LevelState)
    requires Shaped(cfg) && WellFormed(s) && WellFormed(s')
  {
    && (forall i :: 0 <= i < TIGHTEST ==>
          s'.tightenSince[i] == if i < s'.level then None else Armed(cfg, s, p, now, i))
    && s'.relaxSince == (if s'.level != s.level then None else KeptRelax(cfg, s.level, s.relaxSince, p, now))
    && (s'.level > s.level ==> Elapsed(cfg, s, p, now, s'.level - 1))
    && (forall i :: s.level <= i < TIGHTEST && Elapsed(cfg, s, p, now, i) ==> i < s'.level)
    && (s'.level < s.level <==> RelaxElapsed(cfg, s.level, s.relaxSince, p, now))
    && s'.level >= s.level - 1
  }

  lemma StepEffect(cfg: Config, s: LevelState, p: real, now: real)
    requires ValidConfig(cfg) && WellFormed(s)
    ensures Effect(cfg, s, p, now, Step(cfg, s, p, now))
  {
    if s.level > 0 && p < cfg.relax[s.level - 1] {
      EasingExcludesPressing(cfg, s.level, p);
    }
  }

  ghost predicate TimersMean(cfg: Config, ticks: seq<Tick>, lv: seq<nat>, k: nat, s: LevelState)
    requires Shaped(cfg) && Recorded(ticks, lv) && k <= |ticks|
  {
    && WellFormed(s) && s.level == lv[k]
    && (forall b :: 1 <= b <= TIGHTEST ==> TightenTimerMeans(cfg, ticks, lv, k, b, s))
    && RelaxTimerMeans(cfg, ticks, lv, k, s.relaxSince)
  }

  lemma TimersStep(cfg: Config, ticks: seq<Tick>, lv: seq<nat>, k: nat, s: LevelState)
    requires Legal(cfg, ticks) && Recorded(ticks, lv) && k < |ticks|
    requires TimersMean(cfg, ticks, lv, k, s)
    requires lv[k + 1] == Step(cfg, s, ticks[k].p, ticks[k].now).level
    ensures TimersMean(cfg, ticks, lv, k + 1, Step(cfg, s, ticks[k].p, ticks[k].now))
  {
    var s', n := Step(cfg, s, ticks[k].p, ticks[k].now), k + 1;
    StepEffect(cfg, s, ticks[k].p, ticks[k].now);
    forall b | 1 <= b <= TIGHTEST ensures TightenTimerMeans(cfg, ticks, lv, n, b, s') {
      assert s'.tightenSince[b - 1] == if b <= s'.level then None else Armed(cfg, s, ticks[k].p, ticks[k].now, b - 1);
      TightenTimerStep(cfg, ticks, lv, k, b, s, s');
    }
    RelaxTimerStep(cfg, ticks, lv, k, s, s'.relaxSince);
  }

  /** At every point of a run the timers hold exactly the starts of the unbroken streaks. */
  lemma {:induction false} TimersAreStreaks(cfg: Config, ticks: seq<Tick>, states: seq<LevelState>, k: nat)
    requires IsRun(cfg, ticks, states) && k <= |ticks|
    ensures Recorded(ticks, Levels(states)) && TimersMean(cfg, ticks, Levels(states), k, states[k])
  {
    if k > 0 {
      TimersAreStreaks(cfg, ticks, states, k - 1);
      assert StepsAt(cfg, ticks, states, k - 1);
      TimersStep(cfg, ticks, Levels(states), k - 1, states[k - 1]);
    }
  }

  /** A hold of level b elapses only when a streak for b is due. */
  lemma ElapsedIsDue(cfg: Config, ticks: seq<Tick>, lv: seq<nat>, k: nat, b: nat, s: LevelState)
    requires Shaped(cfg) && Monotonic(ticks) && Recorded(ticks, lv) && k < |ticks| && 1 <= b <= TIGHTEST
    requires WellFormed(s) && s.level == lv[k] && TightenTimerMeans(cfg, ticks, lv, k, b, s)
    requires Elapsed(cfg, s, ticks[k].p, ticks[k].now, b - 1)
    ensures TightenDue(cfg, ticks, lv, k, b)
  {
    ExtendPressing(cfg, ticks, lv, k, b, s);
  }

  lemma DueElapses(cfg: Config, ticks: seq<Tick>, lv: seq<nat>, k: nat, b: nat, s: LevelState)
    requires Shaped(cfg) && Monotonic(ticks) && Recorded(ticks, lv) && k < |ticks| && 1 <= b <= TIGHTEST
    requires WellFormed(s) && s.level == lv[k] && TightenTimerMeans(cfg, ticks, lv, k, b, s)
    requires TightenDue(cfg, ticks, lv, k, b)
    ensures Elapsed(cfg, s, ticks[k].p, ticks[k].now, b - 1)
  {
    var j :| 0 <= j <= k && ticks[k].now - ticks[j].now >= cfg.tightenHold && Pressing(cfg, ticks, lv, j, k + 1, b);
    assert lv[k] < b && ticks[k].p >= cfg.tighten[b - 1];
    assert j < k ==> Pressing(cfg, ticks, lv, j, k, b);
  }

  lemma RelaxElapsedIsDue(cfg: Config, ticks: seq<Tick>, lv: seq<nat>, k: nat, s: LevelState)
    requires Shaped(cfg) && Monotonic(ticks) && Recorded(ticks, lv) && k < |ticks|
    requires WellFormed(s) && s.level == lv[k] && RelaxTimerMeans(cfg, ticks, lv, k, s.relaxSince)
    requires RelaxElapsed(cfg, s.level, s.relaxSince, ticks[k].p, ticks[k].now)
    ensures RelaxDue(cfg, ticks, lv, k)
  {
    ExtendEasing(cfg, ticks, lv, k, s.relaxSince);
  }

  lemma RelaxDueElapses(cfg: Config, ticks: seq<Tick>, lv: seq<nat>, k: nat, s: LevelState)
    requires Legal(cfg, ticks) && Recorded(ticks, lv) && k < |ticks|
    requires WellFormed(s) && s.level == lv[k] && RelaxTimerMeans(cfg, ticks, lv, k, s.relaxSince)
    requires RelaxDue(cfg, ticks, lv, k)
    ensures RelaxElapsed(cfg, s.level, s.relaxSince, ticks[k].p, ticks[k].now)
  {
    var l := lv[k];
    var j :| 0 <= j <= k && ticks[k].now - ticks[j].now >= cfg.relaxHold && Easing(cfg, ticks, lv, j, k + 1, l);
    assert lv[k] == l && ticks[k].p < cfg.relax[l - 1];
    LowIsRelaxing(cfg, l, ticks[k].p);
    assert j < k ==> Easing(cfg, ticks, lv, j, k, l);
  }

  // ---------------------------------------------------------------- levels do not fall under pressure

  /** While every update presses for level c, the level neither falls below its start nor below c. */
  lemma {:induction false} PressureHoldsLevel(cfg: Config, ticks: seq<Tick>, lv: seq<nat>, j: nat, k: nat, c: nat)
    requires Legal(cfg, ticks) && Recorded(ticks, lv) && j <= k <= |ticks| && 1 <= c <= TIGHTEST
    requires forall m :: j <= m < k ==> ticks[m].p >= cfg.tighten[c - 1]
    requires forall m :: j <= m < k ==> (lv[m + 1] < lv[m] ==> RelaxDue(cfg, ticks, lv, m)) && lv[m] <= lv[m + 1] + 1
    ensures lv[j] >= c ==> lv[k] >= c
    ensures lv[k] >= c || lv[j] <= lv[k]
    decreases k - j
  {
    if j < k {
      PressureHoldsLevel(cfg, ticks, lv, j, k - 1, c);
      var l := lv[k - 1];
      if lv[k] < l {
        var i :| 0 <= i <= k - 1 && ticks[k - 1].now - ticks[i].now >= cfg.relaxHold && Easing(cfg, ticks, lv, i, k, l);
        EasingExcludesPressing(cfg, l, ticks[k - 1].p);
      }
    }
  }

  /** A level falls by one at most, and only when relaxing is due; it rises to b only when b is due. */
  lemma StepIsDue(cfg: Config, ticks: seq<Tick>, lv: seq<nat>, k: nat, b: nat, s: LevelState)
    requires Legal(cfg, ticks) && Recorded(ticks, lv) && k < |ticks| && 1 <= b <= TIGHTEST
    requires TimersMean(cfg, ticks, lv, k, s)
    requires lv[k + 1] == Step(cfg, s, ticks[k].p, ticks[k].now).level
    ensures lv[k + 1] < lv[k] <==> RelaxDue(cfg, ticks, lv, k)
    ensures lv[k] <= lv[k + 1] + 1
    ensures TightenDue(cfg, ticks, lv, k, b) ==> lv[k] < b <= lv[k + 1]
    ensures lv[k] < b == lv[k + 1] ==> TightenDue(cfg, ticks, lv, k, b)
  {
    StepEffect(cfg, s, ticks[k].p, ticks[k].now);
    if lv[k + 1] < lv[k] {
      RelaxElapsedIsDue(cfg, ticks, lv, k, s);
    }
    if RelaxDue(cfg, ticks, lv, k) {
      RelaxDueElapses(cfg, ticks, lv, k, s);
    }
    assert TightenTimerMeans(cfg, ticks, lv, k, b, s);
    if TightenDue(cfg, ticks, lv, k, b) {
      DueElapses(cfg, ticks, lv, k, b, s);
    }
    if lv[k] < b == lv[k + 1] {
      ElapsedIsDue(cfg, ticks, lv, k, b, s);
    }
  }

  lemma MoveIsDue(cfg: Config, ticks: seq<Tick>, states: seq<LevelState>, lv: seq<nat>, k: nat, b: nat)
    requires IsRun(cfg, ticks, states) && k < |ticks| && lv == Levels(states) && 1 <= b <= TIGHTEST
    ensures Recorded(ticks, lv)
    ensures lv[k + 1] < lv[k] <==> RelaxDue(cfg, ticks, lv, k)
    ensures lv[k] <= lv[k + 1] + 1
    ensures TightenDue(cfg, ticks, lv, k, b) ==> lv[k] < b <= lv[k + 1]
    ensures lv[k] < b == lv[k + 1] ==> TightenDue(cfg, ticks, lv, k, b)
  {
    TimersAreStreaks(cfg, ticks, states, k);
    assert StepsAt(cfg, ticks, states, k);
    StepIsDue(cfg, ticks, lv, k, b, states[k]);
  }

  /** A rise to level `top` has earned every level it passes: the elapsed levels are contiguous. */
  lemma DueBelow(cfg: Config, ticks: seq<Tick>, lv: seq<nat>, k: nat, b: nat, top: nat)
    requires Legal(cfg, ticks) && Recorded(ticks, lv) && k < |ticks| && 1 <= b <= top <= TIGHTEST && lv[k] < b
    requires TightenDue(cfg, ticks, lv, k, top)
    requires forall m :: 0 <= m < k ==> (lv[m + 1] < lv[m] ==> RelaxDue(cfg, ticks, lv, m)) && lv[m] <= lv[m + 1] + 1
    ensures TightenDue(cfg, ticks, lv, k, b)
  {
    var j :| 0 <= j <= k && ticks[k].now - ticks[j].now >= cfg.tightenHold && Pressing(cfg, ticks, lv, j, k + 1, top);
    forall m | j <= m < k + 1 ensures ticks[m].p >= cfg.tighten[b - 1] && lv[m] < b {
      assert ticks[m].p >= cfg.tighten[top - 1];
      PressureHoldsLevel(cfg, ticks, lv, m, k, top);
    }
    assert Pressing(cfg, ticks, lv, j, k + 1, b);
  }

  /**
   The timer machine, started at L0, moves exactly as its history earns: in particular a rise to b
   needs an unbroken streak for b of tightenHold, a fall is by one and needs such a streak of
   relaxHold at that level, and whenever a streak is due the level does move.
   */
  lemma RunsAreEarned(cfg: Config, ticks: seq<Tick>, states: seq<LevelState>)
    requires IsRun(cfg, ticks, states)
    ensures EarnedHistory(cfg, ticks, Levels(states))
  {
    var lv := Levels(states);
    forall k | 0 <= k < |ticks|
      ensures (lv[k + 1] < lv[k] <==> RelaxDue(cfg, ticks, lv, k)) && lv[k] <= lv[k + 1] + 1
    {
      MoveIsDue(cfg, ticks, states, lv, k, 1);
    }
    forall k | 0 <= k < |ticks| ensures Earned(cfg, ticks, lv, k) {
      forall b | 1 <= b <= TIGHTEST ensures TightenDue(cfg, ticks, lv, k, b) <==> lv[k] < b <= lv[k + 1] {
        MoveIsDue(cfg, ticks, states, lv, k, b);
        if lv[k] < b <= lv[k + 1] {
          MoveIsDue(cfg, ticks, states, lv, k, lv[k + 1]);
          DueBelow(cfg, ticks, lv, k, b, lv[k + 1]);
        }
      }
    }
  }
}
