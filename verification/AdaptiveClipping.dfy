/**
 The adaptive cap controller: a four-level state machine with one hold timer per tighter level and
 one relax timer, driven by a wall-clock weighted queue depth.

 `Step` gives the level machine as a function of the pressure; `Controller` is the mutable object of
 the source, proved to refine it.
*/
module AdaptiveClipping {
  import opened Wrappers

  // Levels are numbered 0 (no clipping) to 3 (tightest cap).
  const TIGHTEST := 3

  datatype Config = Config(
    caps: seq<int>,
    tighten: seq<real>,
    relax: seq<real>,
    tightenHold: real,
    relaxHold: real)

  /** What the configuration validators enforce. */
  ghost predicate ValidConfig(cfg: Config) {
    && Shaped(cfg)
    && (forall i :: 0 <= i < TIGHTEST ==> cfg.caps[i] >= 512)
    && (forall i, j :: 0 <= i < j < TIGHTEST ==> cfg.caps[i] > cfg.caps[j])
    && (forall i :: 0 <= i < TIGHTEST ==> 0.0 <= cfg.relax[i] < cfg.tighten[i])
    && (forall i, j :: 0 <= i < j < TIGHTEST ==> cfg.tighten[i] < cfg.tighten[j])
    && (forall i, j :: 0 <= i < j < TIGHTEST ==> cfg.relax[i] < cfg.relax[j])
    && cfg.tightenHold >= 0.0 && cfg.relaxHold >= 0.0
  }

  predicate Shaped(cfg: Config) {
    |cfg.caps| == |cfg.tighten| == |cfg.relax| == TIGHTEST
  }

  datatype Trigger =
    | NoChange
    | TightenHoldStarted
    | TightenHoldPending
    | TightenHoldReset
    | TightenHoldElapsed
    | RelaxHoldStarted
    | RelaxHoldPending
    | RelaxHoldReset
    | RelaxHoldElapsed

  datatype Decision = Decision(
    time: real,
    qInst: nat,
    qBar: real,
    oldLevel: nat,
    newLevel: nat,
    selectedCap: Option<int>,
    trigger: Trigger)

  datatype LevelState = LevelState(
    level: nat,
    tightenSince: seq<Option<real>>,
    relaxSince: Option<real>)

  predicate WellFormed(s: LevelState) {
    s.level <= TIGHTEST && |s.tightenSince| == TIGHTEST
  }

  const INITIAL := LevelState(0, [None, None, None], None)

  // ---------------------------------------------------------------- the level machine

  /** The number of thresholds at or below p (Python's bisect_right on a sorted tuple). */
  function BisectRight(thresholds: seq<real>, p: real): (n: nat)
    requires forall i, j :: 0 <= i < j < |thresholds| ==> thresholds[i] < thresholds[j]
    ensures n <= |thresholds|
    ensures forall i :: 0 <= i < |thresholds| ==> (i < n <==> thresholds[i] <= p)
  {
    if |thresholds| == 0 then 0
    else if thresholds[|thresholds| - 1] <= p then |thresholds|
    else BisectRight(thresholds[..|thresholds| - 1], p)
  }

  /** The hold timer of level i+1 once an update at `now` has seen pressure p. */
  function Armed(cfg: Config, s: LevelState, p: real, now: real, i: nat): Option<real>
    requires |cfg.tighten| == TIGHTEST && WellFormed(s) && i < TIGHTEST
  {
    if i < s.level || p < cfg.tighten[i] then None
    else if s.tightenSince[i].Some? then s.tightenSince[i]
    else Some(now)
  }

  predicate Elapsed(cfg: Config, s: LevelState, p: real, now: real, i: nat)
    requires |cfg.tighten| == TIGHTEST && WellFormed(s) && i < TIGHTEST
  {
    var since := Armed(cfg, s, p, now, i);
    since.Some? && now - since.value >= cfg.tightenHold
  }

  /** The highest of the levels 1..n whose hold has elapsed, or 0. */
  function HighestElapsed(cfg: Config, s: LevelState, p: real, now: real, n: nat): (b: nat)
    requires |cfg.tighten| == TIGHTEST && WellFormed(s) && n <= TIGHTEST
    ensures b <= n
    ensures b > 0 ==> Elapsed(cfg, s, p, now, b - 1)
    ensures forall i :: b <= i < n ==> !Elapsed(cfg, s, p, now, i)
  {
    if n == 0 then 0
    else if Elapsed(cfg, s, p, now, n - 1) then n
    else HighestElapsed(cfg, s, p, now, n - 1)
  }

  function Timers(cfg: Config, s: LevelState, p: real, now: real, from: nat): (t: seq<Option<real>>)
    requires |cfg.tighten| == TIGHTEST && WellFormed(s)
    ensures |t| == TIGHTEST
  {
    seq(TIGHTEST, i requires 0 <= i < TIGHTEST => if i < from then None else Armed(cfg, s, p, now, i))
  }

  /** Whether the pressure lies at or above the threshold of the next tighter level. */
  predicate Rising(cfg: Config, level: nat, p: real)
    requires |cfg.tighten| == TIGHTEST && level <= TIGHTEST
  {
    level < TIGHTEST && p >= cfg.tighten[level]
  }

  /** Whether the pressure lies below the relax threshold of the current level. */
  predicate Relaxing(cfg: Config, level: nat, p: real)
    requires |cfg.tighten| == TIGHTEST && |cfg.relax| == TIGHTEST && level <= TIGHTEST
  {
    !Rising(cfg, level, p) && 0 < level && p < cfg.relax[level - 1]
  }

  /** Whether the relax hold is complete at an update that relaxes. */
  predicate RelaxElapsed(cfg: Config, level: nat, since: Option<real>, p: real, now: real)
    requires Shaped(cfg) && level <= TIGHTEST
  {
    Relaxing(cfg, level, p) && now - (if since.Some? then since.value else now) >= cfg.relaxHold
  }

  /** The relax timer of an update that completes no hold. */
  function KeptRelax(cfg: Config, level: nat, since: Option<real>, p: real, now: real): Option<real>
    requires Shaped(cfg) && level <= TIGHTEST
  {
    if !Relaxing(cfg, level, p) then None else if since.Some? then since else Some(now)
  }

  /** One update of the level machine. */
  function Step(cfg: Config, s: LevelState, p: real, now: real): (s': LevelState)
    requires Shaped(cfg) && WellFormed(s)
    ensures WellFormed(s')
  {
    var b := HighestElapsed(cfg, s, p, now, |cfg.tighten|);
    if b > 0 then LevelState(b, Timers(cfg, s, p, now, b), None)
    else if RelaxElapsed(cfg, s.level, s.relaxSince, p, now) then
      LevelState(s.level - 1, Timers(cfg, s, p, now, 0), None)
    else LevelState(s.level, Timers(cfg, s, p, now, 0), KeptRelax(cfg, s.level, s.relaxSince, p, now))
  }

  /** One of the levels 1..n above the current one gains a running timer in this update. */
  predicate Starts(cfg: Config, s: LevelState, p: real, n: nat)
    requires |cfg.tighten| == TIGHTEST && WellFormed(s) && n <= TIGHTEST
  {
    n > 0 && ((s.level < n && p >= cfg.tighten[n - 1] && s.tightenSince[n - 1].None?) || Starts(cfg, s, p, n - 1))
  }

  /** One of the levels 1..n above the current one loses its running timer in this update. */
  predicate Resets(cfg: Config, s: LevelState, p: real, n: nat)
    requires |cfg.tighten| == TIGHTEST && WellFormed(s) && n <= TIGHTEST
  {
    n > 0 && ((s.level < n && p < cfg.tighten[n - 1] && s.tightenSince[n - 1].Some?) || Resets(cfg, s, p, n - 1))
  }

  /** The audit label of an update in which no tighten hold elapsed. */
  function QuietLabel(cfg: Config, level: nat, since: Option<real>, p: real, now: real, started: bool,
      reset: bool): Trigger
    requires Shaped(cfg) && level <= TIGHTEST
  {
    if RelaxElapsed(cfg, level, since, p, now) then RelaxHoldElapsed
    else if Relaxing(cfg, level, p) then if since.None? then RelaxHoldStarted else RelaxHoldPending
    else if !Rising(cfg, level, p) && level > 0 && since.Some? then RelaxHoldReset
    else if reset then TightenHoldReset
    else if !Rising(cfg, level, p) then NoChange
    else if started then TightenHoldStarted
    else TightenHoldPending
  }

  /** The audit label of an update. */
  function Label(cfg: Config, s: LevelState, p: real, now: real): Trigger
    requires Shaped(cfg) && WellFormed(s)
  {
    if HighestElapsed(cfg, s, p, now, |cfg.tighten|) > 0 then TightenHoldElapsed
    else QuietLabel(cfg, s.level, s.relaxSince, p, now, Starts(cfg, s, p, |cfg.tighten|),
        Resets(cfg, s, p, |cfg.tighten|))
  }

  /** The cap published at a level; the no-clip level publishes none. */
  function Cap(cfg: Config, level: nat): Option<int>
    requires |cfg.caps| == TIGHTEST && level <= TIGHTEST
  {
    if level == 0 then None else Some(cfg.caps[level - 1])
  }

  // ---------------------------------------------------------------- the depth signal

  datatype Signal = Signal(qInst: nat, qBar: real, last: Option<real>)

  const QUIET := Signal(0, 0.0, None)

  /** The weighted mean of x (weight d) and y. */
  function Mix(d: real, x: real, y: real): real {
    d * x + (1.0 - d) * y
  }

  /** Integrates the previous depth over the elapsed time, then takes the new depth. */
  function Observe(decay: real -> real, s: Signal, q: nat, now: real): Signal {
    var qBar :=
      if s.last.None? then s.qBar
      else Mix(decay(now - s.last.value), s.qBar, s.qInst as real);
    Signal(q, qBar, Some(now))
  }

  function Pressure(s: Signal): (p: real)
    ensures p >= s.qInst as real && p >= s.qBar
    ensures p == s.qInst as real || p == s.qBar
  {
    if s.qInst as real >= s.qBar then s.qInst as real else s.qBar
  }

  // ---------------------------------------------------------------- the mutable controller

  datatype UpdateError = NegativeDepth | ClockWentBack

  class Controller {
    const cfg: Config
    const decay: real -> real
    var level: nat
    var qInst: nat
    var qBar: real
    var lastUpdate: Option<real>
    var tightenSince: seq<Option<real>>
    var relaxSince: Option<real>

    ghost predicate Valid()
      reads this
    {
      ValidConfig(cfg) && WellFormed(Levels())
    }

    function Levels(): LevelState
      reads this
    {
      LevelState(level, tightenSince, relaxSince)
    }

    function Depth(): Signal
      reads this
    {
      Signal(qInst, qBar, lastUpdate)
    }

    constructor (cfg: Config, decay: real -> real)
      requires ValidConfig(cfg)
      ensures Valid() && this.cfg == cfg && this.decay == decay
      ensures Levels() == INITIAL && Depth() == QUIET
    {
      this.cfg := cfg;
      this.decay := decay;
      level := 0;
      qInst := 0;
      qBar := 0.0;
      lastUpdate := None;
      tightenSince := [None, None, None];
      relaxSince := None;
    }

    /** Integrates the elapsed depth, then updates the discrete level. */
    method Update(q: int, now: real) returns (r: Result<Decision, UpdateError>)
      requires Valid()
      modifies this
      ensures Valid()
      ensures r.Failure? <==> q < 0 || (old(lastUpdate).Some? && now < old(lastUpdate).value)
      ensures r.Failure? ==> unchanged(this)
      ensures r.Failure? ==> r.error == if q < 0 then NegativeDepth else ClockWentBack
      ensures r.Success? ==> Depth() == Observe(decay, old(Depth()), q, now)
      ensures r.Success? ==> Levels() == Step(cfg, old(Levels()), Pressure(Depth()), now)
      ensures r.Success? ==>
                r.value == Decision(now, qInst, qBar, old(level), level, Cap(cfg, level),
                                    Label(cfg, old(Levels()), Pressure(Depth()), now))
    {
      if q < 0 {
        return Failure(NegativeDepth);
      }
      if lastUpdate.Some? {
        var elapsed := now - lastUpdate.value;
        if elapsed < 0.0 {
          return Failure(ClockWentBack);
        }
        qBar := Mix(decay(elapsed), qBar, qInst as real);
      }
      lastUpdate := Some(now);
      qInst := q;
      var oldLevel := level;
      var trigger := UpdateLevel(now);
      r := Success(Decision(now, qInst, qBar, oldLevel, level, Cap(cfg, level), trigger));
    }

    /** Starts, keeps or resets the hold timer of level i+1. */
    method Hold(i: nat, p: real, now: real, ghost s: LevelState) returns (elapsed: bool, started: bool, reset: bool)
      requires Valid() && i < TIGHTEST
      requires WellFormed(s) && s.level == level && s.tightenSince[i] == tightenSince[i]
      modifies `tightenSince
      ensures tightenSince == old(tightenSince)[i := Armed(cfg, s, p, now, i)]
      ensures elapsed == Elapsed(cfg, s, p, now, i)
      ensures started <==> s.level <= i && p >= cfg.tighten[i] && s.tightenSince[i].None?
      ensures reset <==> s.level <= i && p < cfg.tighten[i] && s.tightenSince[i].Some?
    {
      elapsed, started, reset := false, false, false;
      if i < level {
        tightenSince := tightenSince[i := None];
      } else if p >= cfg.tighten[i] {
        if tightenSince[i].None? {
          tightenSince := tightenSince[i := Some(now)];
          started := true;
        }
        elapsed := now - tightenSince[i].value >= cfg.tightenHold;
      } else if tightenSince[i].Some? {
        tightenSince := tightenSince[i := None];
        reset := true;
      }
    }

    /** Runs the hold timers of every tighter level and finds the highest that has elapsed. */
    method ScanTimers(p: real, now: real) returns (highest: nat, started: bool, reset: bool)
      requires Valid()
      modifies `tightenSince
      ensures Valid()
      ensures tightenSince == Timers(cfg, old(Levels()), p, now, 0)
      ensures highest == HighestElapsed(cfg, old(Levels()), p, now, |cfg.tighten|)
      ensures started <==> Starts(cfg, old(Levels()), p, |cfg.tighten|)
      ensures reset <==> Resets(cfg, old(Levels()), p, |cfg.tighten|)
    {
      ghost var s := Levels();
      ghost var timers := Timers(cfg, s, p, now, 0);
      started, reset, highest := false, false, 0;
      for i := 0 to |cfg.tighten|
        invariant WellFormed(Levels())
        invariant forall k :: 0 <= k < TIGHTEST ==> tightenSince[k] == if k < i then timers[k] else s.tightenSince[k]
        invariant highest == HighestElapsed(cfg, s, p, now, i)
        invariant started == Starts(cfg, s, p, i)
        invariant reset == Resets(cfg, s, p, i)
      {
        var elapsed, begun, dropped := Hold(i, p, now, s);
        started, reset := started || begun, reset || dropped;
        if elapsed {
          highest := i + 1;
        }
      }
    }

    /** Jumps to a tighter level, clearing its timers and those below it. */
    method Tighten(b: nat)
      requires Valid() && 0 < b <= TIGHTEST
      modifies `level, `tightenSince, `relaxSince
      ensures level == b && relaxSince == None && |tightenSince| == TIGHTEST
      ensures forall k :: 0 <= k < TIGHTEST ==> tightenSince[k] == if k < b then None else old(tightenSince)[k]
    {
      level := b;
      for i := 0 to b
        invariant level == b && |tightenSince| == TIGHTEST
        invariant forall k :: 0 <= k < TIGHTEST ==> tightenSince[k] == if k < i then None else old(tightenSince)[k]
      {
        tightenSince := tightenSince[i := None];
      }
      relaxSince := None;
    }

    /** Starts, keeps or completes the relax hold of a level the pressure has left. */
    method Relax(now: real) returns (trigger: Trigger)
      requires level > 0
      modifies `level, `relaxSince
      ensures var since := if old(relaxSince).Some? then old(relaxSince).value else now;
              if now - since >= cfg.relaxHold then
                level == old(level) - 1 && relaxSince == None && trigger == RelaxHoldElapsed
              else
                && level == old(level) && relaxSince == Some(since)
                && trigger == if old(relaxSince).None? then RelaxHoldStarted else RelaxHoldPending
    {
      if relaxSince.None? {
        relaxSince := Some(now);
        trigger := RelaxHoldStarted;
      } else {
        trigger := RelaxHoldPending;
      }
      if now - relaxSince.value >= cfg.relaxHold {
        level := level - 1;
        relaxSince := None;
        return RelaxHoldElapsed;
      }
    }

    method UpdateLevel(now: real) returns (trigger: Trigger)
      requires Valid()
      modifies `level, `tightenSince, `relaxSince
      ensures Valid()
      ensures Levels() == Step(cfg, old(Levels()), Pressure(Depth()), now)
      ensures trigger == Label(cfg, old(Levels()), Pressure(Depth()), now)
    {
      ghost var s := Levels();
      var p := Pressure(Depth());
      var target := BisectRight(cfg.tighten, p);
      var highest, started, reset := ScanTimers(p, now);
      if highest > 0 {
        Tighten(highest);
        assert tightenSince == Timers(cfg, s, p, now, highest);
        return TightenHoldElapsed;
      }
      assert target > level <==> Rising(cfg, level, p);
      // A target above the level has a running timer, so the source's RuntimeError cannot be reached.
      assert target > level ==> tightenSince[level].Some?;
      trigger := Rest(target, p, now, started, reset);
    }

    /** The update when no tighten hold has elapsed. */
    method Rest(target: nat, p: real, now: real, started: bool, reset: bool) returns (trigger: Trigger)
      requires Shaped(cfg) && level <= TIGHTEST
      requires target > level <==> Rising(cfg, level, p)
      modifies `level, `relaxSince
      ensures level == if RelaxElapsed(cfg, old(level), old(relaxSince), p, now) then old(level) - 1 else old(level)
      ensures relaxSince ==
              if RelaxElapsed(cfg, old(level), old(relaxSince), p, now) then None
              else KeptRelax(cfg, old(level), old(relaxSince), p, now)
      ensures trigger == QuietLabel(cfg, old(level), old(relaxSince), p, now, started, reset)
    {
      if target > level {
        relaxSince := None;
        return if reset then TightenHoldReset else if started then TightenHoldStarted else TightenHoldPending;
      }
      if level == 0 {
        relaxSince := None;
        return if reset then TightenHoldReset else NoChange;
      }
      if p >= cfg.relax[level - 1] {
        if relaxSince.Some? {
          relaxSince := None;
          return RelaxHoldReset;
        }
        return if reset then TightenHoldReset else NoChange;
      }
      trigger := Relax(now);
    }
  }
}
