/** What a controller's decision record says about the update that wrote it: its label and its cap. */
module ControllerAudit {
  import opened AdaptiveClipping
  import opened Wrappers

  /** The pressure lies at or above the threshold of the next tighter level. */
  predicate Pressed(cfg: Config, level: nat, p: real)
    requires |cfg.tighten| == TIGHTEST
  {
    level < TIGHTEST && p >= cfg.tighten[level]
  }

  /** A hold of a level above the current one began. */
  ghost predicate HoldBegan(s: LevelState, s': LevelState)
    requires WellFormed(s) && WellFormed(s')
  {
    exists i :: s.level <= i < TIGHTEST && s.tightenSince[i].None? && s'.tightenSince[i].Some?
  }

  /** A hold of a level above the current one was lost. */
  ghost predicate HoldLost(s: LevelState, s': LevelState)
    requires WellFormed(s) && WellFormed(s')
  {
    exists i :: s.level <= i < TIGHTEST && s.tightenSince[i].Some? && s'.tightenSince[i].None?
  }

  lemma StartsAndResets(cfg: Config, s: LevelState, p: real, now: real)
    requires Shaped(cfg) && WellFormed(s) && HighestElapsed(cfg, s, p, now, TIGHTEST) == 0
    ensures Starts(cfg, s, p, TIGHTEST) <==> HoldBegan(s, Step(cfg, s, p, now))
    ensures Resets(cfg, s, p, TIGHTEST) <==> HoldLost(s, Step(cfg, s, p, now))
  {
    var t := Step(cfg, s, p, now).tightenSince;
    assert forall i :: 0 <= i < TIGHTEST ==> t[i] == Armed(cfg, s, p, now, i);
    assert Starts(cfg, s, p, TIGHTEST) <==>
             exists i :: 0 <= i < TIGHTEST && StartsAt(cfg, s, p, i) by { StartsIsExists(cfg, s, p, TIGHTEST); }
    assert Resets(cfg, s, p, TIGHTEST) <==>
             exists i :: 0 <= i < TIGHTEST && ResetsAt(cfg, s, p, i) by { ResetsIsExists(cfg, s, p, TIGHTEST); }
    forall i | 0 <= i < TIGHTEST
      ensures StartsAt(cfg, s, p, i) <==> s.level <= i && s.tightenSince[i].None? && t[i].Some?
      ensures ResetsAt(cfg, s, p, i) <==> s.level <= i && s.tightenSince[i].Some? && t[i].None?
    {
      assert t[i] == Armed(cfg, s, p, now, i);
    }
  }

  ghost predicate StartsAt(cfg: Config, s: LevelState, p: real, i: nat)
    requires |cfg.tighten| == TIGHTEST && WellFormed(s) && i < TIGHTEST
  {
    s.level <= i && p >= cfg.tighten[i] && s.tightenSince[i].None?
  }

  ghost predicate ResetsAt(cfg: Config, s: LevelState, p: real, i: nat)
    requires |cfg.tighten| == TIGHTEST && WellFormed(s) && i < TIGHTEST
  {
    s.level <= i && p < cfg.tighten[i] && s.tightenSince[i].Some?
  }

  lemma {:induction false} StartsIsExists(cfg: Config, s: LevelState, p: real, n: nat)
    requires |cfg.tighten| == TIGHTEST && WellFormed(s) && n <= TIGHTEST
    ensures Starts(cfg, s, p, n) <==> exists i :: 0 <= i < n && StartsAt(cfg, s, p, i)
  {
    if n > 0 {
      StartsIsExists(cfg, s, p, n - 1);
      assert StartsAt(cfg, s, p, n - 1) <==> s.level < n && p >= cfg.tighten[n - 1] && s.tightenSince[n - 1].None?;
    }
  }

  lemma {:induction false} ResetsIsExists(cfg: Config, s: LevelState, p: real, n: nat)
    requires |cfg.tighten| == TIGHTEST && WellFormed(s) && n <= TIGHTEST
    ensures Resets(cfg, s, p, n) <==> exists i :: 0 <= i < n && ResetsAt(cfg, s, p, i)
  {
    if n > 0 {
      ResetsIsExists(cfg, s, p, n - 1);
      assert ResetsAt(cfg, s, p, n - 1) <==> s.level < n && p < cfg.tighten[n - 1] && s.tightenSince[n - 1].Some?;
    }
  }

  /** The label an update must carry, from its levels and timers before and after alone. */
  ghost function Told(cfg: Config, s: LevelState, s': LevelState, p: real): Trigger
    requires Shaped(cfg) && WellFormed(s) && WellFormed(s')
  {
    if s'.level > s.level then TightenHoldElapsed
    else if s'.level < s.level then RelaxHoldElapsed
    else if s'.relaxSince.Some? then if s.relaxSince.None? then RelaxHoldStarted else RelaxHoldPending
    else if s.relaxSince.Some? && s.level > 0 && !Pressed(cfg, s.level, p) then RelaxHoldReset
    else if HoldLost(s, s') then TightenHoldReset
    else if !Pressed(cfg, s.level, p) then NoChange
    else if HoldBegan(s, s') then TightenHoldStarted
    else TightenHoldPending
  }

  /** The audit label tells what the update did to the level and to the timers. */
  lemma LabelTells(cfg: Config, s: LevelState, p: real, now: real)
    requires Shaped(cfg) && WellFormed(s)
    ensures Label(cfg, s, p, now) == Told(cfg, s, Step(cfg, s, p, now), p)
  {
    if HighestElapsed(cfg, s, p, now, TIGHTEST) == 0 {
      StartsAndResets(cfg, s, p, now);
    }
  }

  /** The no-clip level publishes no cap; level l publishes the l-th, and tighter levels publish smaller caps. */
  lemma CapsTighten(cfg: Config, l: nat)
    requires ValidConfig(cfg) && l <= TIGHTEST
    ensures Cap(cfg, l).None? <==> l == 0
    ensures forall i :: 0 <= i < TIGHTEST && l == i + 1 ==> Cap(cfg, l) == Some(cfg.caps[i])
    ensures forall k: nat :: 0 < k < l ==> Cap(cfg, l).value < Cap(cfg, k).value
  {
  }
}
