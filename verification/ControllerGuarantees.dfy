/**
 Guarantees over whole runs of the level machine: transitions are spaced (no thrashing), held pressure
 is answered within a bound, low pressure settles within a bound and never too soon, and constant
 pressure converges to the hysteresis band.
*/
module ControllerGuarantees {
  import opened AdaptiveClipping
  import opened ControllerHistory

  // ---------------------------------------------------------------- anti-thrash

  /** A relaxation comes at least relaxHold after every earlier level change. */
  lemma RelaxIsSpaced(cfg: Config, ticks: seq<Tick>, lv: seq<nat>, r: nat, k: nat)
    requires EarnedHistory(cfg, ticks, lv) && r < k < |ticks|
    requires lv[r] != lv[r + 1] && lv[k + 1] < lv[k]
    ensures ticks[k].now - ticks[r].now >= cfg.relaxHold
  {
    assert Earned(cfg, ticks, lv, k);
    var j :| 0 <= j <= k && ticks[k].now - ticks[j].now >= cfg.relaxHold && Easing(cfg, ticks, lv, j, k + 1, lv[k]);
    assert j > r;
  }

  /** A tightening comes at least tightenHold after every earlier relaxation. */
  lemma TightenIsSpaced(cfg: Config, ticks: seq<Tick>, lv: seq<nat>, r: nat, k: nat)
    requires EarnedHistory(cfg, ticks, lv) && r < k < |ticks|
    requires lv[r + 1] < lv[r] && lv[k + 1] > lv[k]
    ensures ticks[k].now - ticks[r].now >= cfg.tightenHold
  {
    assert Earned(cfg, ticks, lv, k);
    var b := lv[k + 1];
    assert TightenDue(cfg, ticks, lv, k, b);
    var j :| 0 <= j <= k && ticks[k].now - ticks[j].now >= cfg.tightenHold && Pressing(cfg, ticks, lv, j, k + 1, b);
    EasedAt(cfg, ticks, lv, r);
    assert j > r;
  }

  /** An update that relaxes saw pressure below every threshold that could tighten again. */
  lemma EasedAt(cfg: Config, ticks: seq<Tick>, lv: seq<nat>, r: nat)
    requires EarnedHistory(cfg, ticks, lv) && r < |ticks| && lv[r + 1] < lv[r]
    ensures ticks[r].p < cfg.relax[lv[r] - 1]
    ensures forall i :: lv[r] - 1 <= i < TIGHTEST ==> ticks[r].p < cfg.tighten[i]
  {
    assert Earned(cfg, ticks, lv, r);
    var i :| 0 <= i <= r && ticks[r].now - ticks[i].now >= cfg.relaxHold && Easing(cfg, ticks, lv, i, r + 1, lv[r]);
    EasingExcludesPressing(cfg, lv[r], ticks[r].p);
  }

  // ---------------------------------------------------------------- response time

  lemma HeldLevel(cfg: Config, ticks: seq<Tick>, lv: seq<nat>, m: nat, k: nat, j: nat)
    requires EarnedHistory(cfg, ticks, lv) && m <= k <= |ticks| && 1 <= j <= TIGHTEST
    requires forall i :: m <= i < k ==> ticks[i].p >= cfg.tighten[j - 1]
    requires lv[m] >= j
    ensures lv[k] >= j
  {
    forall i | m <= i < k ensures (lv[i + 1] < lv[i] ==> RelaxDue(cfg, ticks, lv, i)) && lv[i] <= lv[i + 1] + 1 {
      assert Earned(cfg, ticks, lv, i);
    }
    PressureHoldsLevel(cfg, ticks, lv, m, k, j);
  }

  /** Pressure at or above tighten[j-1] throughout a..k, for tightenHold, gives level j or tighter. */
  lemma HeldPressureTightens(cfg: Config, ticks: seq<Tick>, lv: seq<nat>, a: nat, k: nat, j: nat)
    requires EarnedHistory(cfg, ticks, lv) && a <= k < |ticks| && 1 <= j <= TIGHTEST
    requires forall m :: a <= m <= k ==> ticks[m].p >= cfg.tighten[j - 1]
    requires ticks[k].now - ticks[a].now >= cfg.tightenHold
    ensures lv[k + 1] >= j
  {
    if m :| a <= m <= k && lv[m] >= j {
      HeldLevel(cfg, ticks, lv, m, k + 1, j);
    } else {
      assert Pressing(cfg, ticks, lv, a, k + 1, j);
      assert TightenDue(cfg, ticks, lv, k, j);
      assert Earned(cfg, ticks, lv, k);
    }
  }

  ghost predicate GapsAtMost(ticks: seq<Tick>, a: nat, d: real) {
    forall m :: a <= m && m + 1 < |ticks| ==> ticks[m + 1].now - ticks[m].now <= d
  }

  /** With gaps of at most d, some update is the first at or after any time the run still reaches. */
  lemma {:induction false} FirstAtOrAfter(ticks: seq<Tick>, a: nat, t: real, d: real) returns (k: nat)
    requires Monotonic(ticks) && a < |ticks| && GapsAtMost(ticks, a, d) && d >= 0.0
    requires ticks[a].now <= t <= ticks[|ticks| - 1].now
    ensures a <= k < |ticks| && t <= ticks[k].now <= t + d
    ensures forall m :: a <= m < k ==> ticks[m].now < t
    decreases |ticks| - a
  {
    if t <= ticks[a].now {
      k := a;
    } else if ticks[a + 1].now >= t {
      k := a + 1;
    } else {
      k := FirstAtOrAfter(ticks, a + 1, t, d);
    }
  }

  /** Sustained pressure for level j is answered within tightenHold + d and never given up again. */
  lemma RespondsInTime(cfg: Config, ticks: seq<Tick>, lv: seq<nat>, a: nat, j: nat, d: real) returns (k: nat)
    requires EarnedHistory(cfg, ticks, lv) && a < |ticks| && 1 <= j <= TIGHTEST
    requires forall m :: a <= m < |ticks| ==> ticks[m].p >= cfg.tighten[j - 1]
    requires d >= 0.0 && GapsAtMost(ticks, a, d)
    requires ticks[a].now + cfg.tightenHold <= ticks[|ticks| - 1].now
    ensures a <= k < |ticks| && ticks[k].now <= ticks[a].now + cfg.tightenHold + d
    ensures forall n :: k < n <= |ticks| ==> lv[n] >= j
  {
    k := FirstAtOrAfter(ticks, a, ticks[a].now + cfg.tightenHold, d);
    HeldPressureTightens(cfg, ticks, lv, a, k, j);
    forall n | k < n <= |ticks| ensures lv[n] >= j {
      HeldLevel(cfg, ticks, lv, k + 1, n, j);
    }
  }

  // ---------------------------------------------------------------- settling time

  /** Every update from a on sees pressure below the relax threshold of level h+1. */
  ghost predicate LowFrom(cfg: Config, ticks: seq<Tick>, a: nat, h: nat)
    requires ValidConfig(cfg) && h < TIGHTEST
  {
    forall m :: a <= m < |ticks| ==> ticks[m].p < cfg.relax[h]
  }

  /** The time n relaxations may take when updates come at most d apart. */
  function SettleTime(cfg: Config, n: nat, d: real): real
    requires n > 0
  {
    if n == 1 then cfg.relaxHold + d else cfg.relaxHold + 2.0 * d + SettleTime(cfg, n - 1, d)
  }

  /** Time for n holds in a row. */
  function HoldTime(cfg: Config, n: nat): real {
    if n == 0 then 0.0 else cfg.relaxHold + HoldTime(cfg, n - 1)
  }

  lemma {:induction false} TimesInClosedForm(cfg: Config, n: nat, d: real)
    requires n > 0
    ensures SettleTime(cfg, n, d) == SettleBound(cfg, n, d)
    ensures HoldTime(cfg, n) == n as real * cfg.relaxHold
  {
    if n > 1 {
      TimesInClosedForm(cfg, n - 1, d);
      assert n as real * (cfg.relaxHold + d) == (n - 1) as real * (cfg.relaxHold + d) + cfg.relaxHold + d;
      assert n as real * cfg.relaxHold == (n - 1) as real * cfg.relaxHold + cfg.relaxHold;
    }
  }

  lemma {:induction false} MoreLevelsTakeLonger(cfg: Config, n: nat, m: nat, d: real)
    requires ValidConfig(cfg) && n <= m && d > 0.0
    ensures HoldTime(cfg, n) <= HoldTime(cfg, m)
    ensures n > 0 ==> cfg.relaxHold + d <= SettleTime(cfg, n, d)
    ensures n > 1 ==> cfg.relaxHold + d < SettleTime(cfg, n, d)
    decreases m
  {
    if n < m {
      MoreLevelsTakeLonger(cfg, n, m - 1, d);
    } else if n > 1 {
      MoreLevelsTakeLonger(cfg, n - 1, m - 1, d);
    }
  }

  /** Under low pressure a level above h never rises, and a level at most h stays at most h. */
  lemma {:induction false} LowNeverRaises(cfg: Config, ticks: seq<Tick>, lv: seq<nat>, a: nat, k: nat, h: nat)
    requires EarnedHistory(cfg, ticks, lv) && a <= k <= |ticks| && h < TIGHTEST && LowFrom(cfg, ticks, a, h)
    ensures lv[k] <= if lv[a] > h then lv[a] else h
    decreases k - a
  {
    if a < k {
      LowNeverRaises(cfg, ticks, lv, a, k - 1, h);
      assert Earned(cfg, ticks, lv, k - 1);
      EasingExcludesPressing(cfg, h + 1, ticks[k - 1].p);
      assert lv[k] > lv[k - 1] ==> TightenDue(cfg, ticks, lv, k - 1, lv[k]);
    }
  }

  /** One relaxation: a level above h is left within relaxHold + d. */
  lemma FallsOnce(cfg: Config, ticks: seq<Tick>, lv: seq<nat>, a: nat, h: nat, d: real) returns (k: nat)
    requires EarnedHistory(cfg, ticks, lv) && a < |ticks| && h < lv[a] && LowFrom(cfg, ticks, a, h)
    requires d > 0.0 && GapsAtMost(ticks, a, d)
    requires ticks[a].now + cfg.relaxHold <= ticks[|ticks| - 1].now
    ensures a <= k < |ticks| && ticks[k].now <= ticks[a].now + cfg.relaxHold + d
    ensures lv[k + 1] < lv[a]
  {
    k := FirstAtOrAfter(ticks, a, ticks[a].now + cfg.relaxHold, d);
    var l := lv[a];
    if m :| a <= m <= k && lv[m] != l {
      LowNeverRaises(cfg, ticks, lv, a, m, h);
      k := m - 1;
      assert ticks[m - 1].now <= ticks[m].now;
    } else {
      forall m | a <= m < k + 1 ensures ticks[m].p < cfg.relax[l - 1] && lv[m] == l {
        assert ticks[m].p < cfg.relax[h];
      }
      assert Easing(cfg, ticks, lv, a, k + 1, l);
      assert Earned(cfg, ticks, lv, k);
    }
  }

  /** The level reached from update a on when updates come at different times: the last relaxation may take d more. */
  lemma {:induction false} SettlesWithGaps(cfg: Config, ticks: seq<Tick>, lv: seq<nat>, a: nat, h: nat, d: real, k: nat)
    requires EarnedHistory(cfg, ticks, lv) && a <= k < |ticks| && h < lv[a] && LowFrom(cfg, ticks, a, h)
    requires d > 0.0 && GapsAtMost(ticks, a, d)
    requires ticks[k].now - ticks[a].now >= SettleTime(cfg, lv[a] - h, d) - d
    ensures lv[k + 1] <= h
    decreases lv[a]
  {
    if lv[a] == h + 1 {
      SettledBefore(cfg, ticks, lv, a, h, k);
      return;
    }
    MoreLevelsTakeLonger(cfg, lv[a] - h - 1, lv[a] - h - 1, d);
    assert ticks[k].now <= ticks[|ticks| - 1].now;
    var k' := FallsOnce(cfg, ticks, lv, a, h, d);
    assert k' < k;
    if lv[k' + 1] <= h {
      LowNeverRaises(cfg, ticks, lv, k' + 1, k + 1, h);
    } else {
      assert ticks[k' + 1].now - ticks[k'].now <= d;
      SettlesWithGaps(cfg, ticks, lv, k' + 1, h, d, k);
    }
  }

  /** Without a relax hold, every update without pressure sheds exactly one level. */
  lemma {:induction false} InstantRelaxSheds(cfg: Config, ticks: seq<Tick>, lv: seq<nat>, a: nat, h: nat, k: nat)
    requires EarnedHistory(cfg, ticks, lv) && a <= k <= |ticks| && h < lv[a] && LowFrom(cfg, ticks, a, h)
    requires cfg.relaxHold == 0.0
    ensures lv[k] <= h <==> k - a >= lv[a] - h
    ensures k - a <= lv[a] - h ==> lv[k] == lv[a] - (k - a)
    decreases k
  {
    if a < k {
      var m := k - 1;
      InstantRelaxSheds(cfg, ticks, lv, a, h, m);
      if lv[m] <= h {
        LowNeverRaises(cfg, ticks, lv, m, k, h);
      } else {
        LowNeverRaises(cfg, ticks, lv, m, k, lv[m] - 1);
        ShedsNow(cfg, ticks, lv, m, h);
      }
    }
  }

  lemma ShedsNow(cfg: Config, ticks: seq<Tick>, lv: seq<nat>, m: nat, h: nat)
    requires EarnedHistory(cfg, ticks, lv) && m < |ticks| && h < lv[m] && LowFrom(cfg, ticks, m, h)
    requires cfg.relaxHold == 0.0
    ensures lv[m + 1] == lv[m] - 1
  {
    assert ticks[m].p < cfg.relax[lv[m] - 1];
    assert Easing(cfg, ticks, lv, m, m + 1, lv[m]);
    assert Earned(cfg, ticks, lv, m);
  }

  lemma {:induction false} NoTimePasses(ticks: seq<Tick>, a: nat, k: nat)
    requires a <= k < |ticks| && GapsAtMost(ticks, a, 0.0)
    ensures ticks[k].now <= ticks[a].now
    decreases k
  {
    if a < k {
      NoTimePasses(ticks, a, k - 1);
      var m := k - 1;
      assert ticks[m + 1].now - ticks[m].now <= 0.0;
    }
  }

  lemma {:induction false} SettleTimeCoversHold(cfg: Config, n: nat, d: real)
    requires ValidConfig(cfg) && n > 0 && d >= 0.0
    ensures SettleTime(cfg, n, d) >= cfg.relaxHold + d
    ensures d == 0.0 && cfg.relaxHold == 0.0 ==> SettleTime(cfg, n, d) == 0.0
  {
    if n > 1 {
      SettleTimeCoversHold(cfg, n - 1, d);
    }
  }

  /** n*(relaxHold+d) + (n-1)*d: n relaxations and the gaps between them. */
  function SettleBound(cfg: Config, n: nat, d: real): real {
    n as real * (cfg.relaxHold + d) + (n as real - 1.0) * d
  }

  /** Too little happens only when neither the updates nor the relax hold take any time and there are fewer than n. */
  predicate EnoughHappens(cfg: Config, d: real, updates: nat, n: nat) {
    d > 0.0 || cfg.relaxHold > 0.0 || updates >= n
  }

  /**
   Pressure held below relax[h]: every update that comes n*relaxHold + 2*(n-1)*d or more after a, n being the number of
   levels to shed, finds level h or looser, exactly when enough happens.
  */
  lemma SettledFrom(cfg: Config, ticks: seq<Tick>, lv: seq<nat>, a: nat, h: nat, d: real, k: nat)
    requires EarnedHistory(cfg, ticks, lv) && a <= k < |ticks| && h < lv[a] && LowFrom(cfg, ticks, a, h)
    requires d >= 0.0 && GapsAtMost(ticks, a, d)
    requires ticks[k].now - ticks[a].now >= SettleBound(cfg, lv[a] - h, d) - d
    ensures lv[k + 1] <= h <==> EnoughHappens(cfg, d, k + 1 - a, lv[a] - h)
  {
    TimesInClosedForm(cfg, lv[a] - h, d);
    if d > 0.0 {
      SettlesWithGaps(cfg, ticks, lv, a, h, d, k);
    } else {
      NoTimePasses(ticks, a, k);
      SettleTimeCoversHold(cfg, lv[a] - h, d);
      if cfg.relaxHold > 0.0 {
        assert false;
      } else {
        InstantRelaxSheds(cfg, ticks, lv, a, h, k + 1);
      }
    }
  }

  /** Some update no later than t brings level h or looser, for good. */
  ghost predicate SettlesBy(ticks: seq<Tick>, lv: seq<nat>, a: nat, h: nat, t: real)
    requires |lv| == |ticks| + 1
  {
    exists k :: a <= k < |ticks| && ticks[k].now <= t && forall m :: k < m <= |ticks| ==> lv[m] <= h
  }

  /**
   Pressure held below relax[h] brings the level down to h or looser within n*(relaxHold+d) + (n-1)*d, for good, in
   every run that reaches the last d of that time: exactly when enough happens.
  */
  lemma SettlesInTime(cfg: Config, ticks: seq<Tick>, lv: seq<nat>, a: nat, h: nat, d: real)
    requires EarnedHistory(cfg, ticks, lv) && a < |ticks| && h < lv[a] && LowFrom(cfg, ticks, a, h)
    requires d >= 0.0 && GapsAtMost(ticks, a, d)
    requires ticks[|ticks| - 1].now >= ticks[a].now + SettleBound(cfg, lv[a] - h, d) - d
    ensures SettlesBy(ticks, lv, a, h, ticks[a].now + SettleBound(cfg, lv[a] - h, d))
       <==> EnoughHappens(cfg, d, |ticks| - a, lv[a] - h)
  {
    var n, last := lv[a] - h, |ticks| - 1;
    TimesInClosedForm(cfg, n, d);
    SettleTimeCoversHold(cfg, n, d);
    SettledFrom(cfg, ticks, lv, a, h, d, last);
    if d > 0.0 {
      var k := FirstAtOrAfter(ticks, a, ticks[a].now + SettleBound(cfg, n, d) - d, d);
      SettledFrom(cfg, ticks, lv, a, h, d, k);
      StaysLow(cfg, ticks, lv, k, h);
    } else {
      NoTimePasses(ticks, a, last);
      if lv[|ticks|] <= h {
        assert forall m :: last < m <= |ticks| ==> lv[m] <= h;
      }
    }
  }

  lemma StaysLow(cfg: Config, ticks: seq<Tick>, lv: seq<nat>, k: nat, h: nat)
    requires EarnedHistory(cfg, ticks, lv) && k < |ticks| && h < TIGHTEST && LowFrom(cfg, ticks, k, h)
    requires lv[k + 1] <= h
    ensures forall m :: k < m <= |ticks| ==> lv[m] <= h
  {
    forall m | k < m <= |ticks| ensures lv[m] <= h {
      LowNeverRaises(cfg, ticks, lv, k + 1, m, h);
    }
  }

  /** The failing family: with no time between updates and no relax hold, fewer than n updates miss the bound. */
  lemma ZeroGapsMissTheBound(cfg: Config, ticks: seq<Tick>, lv: seq<nat>, a: nat, h: nat)
    requires EarnedHistory(cfg, ticks, lv) && a < |ticks| && h < lv[a] && LowFrom(cfg, ticks, a, h)
    requires cfg.relaxHold == 0.0 && GapsAtMost(ticks, a, 0.0) && |ticks| - a < lv[a] - h
    ensures SettleBound(cfg, lv[a] - h, 0.0) == 0.0
    ensures !SettlesBy(ticks, lv, a, h, ticks[a].now + SettleBound(cfg, lv[a] - h, 0.0)) && lv[|ticks|] > h
  {
    TimesInClosedForm(cfg, lv[a] - h, 0.0);
    SettleTimeCoversHold(cfg, lv[a] - h, 0.0);
    assert ticks[a].now <= ticks[|ticks| - 1].now;
    SettlesInTime(cfg, ticks, lv, a, h, 0.0);
    SettledFrom(cfg, ticks, lv, a, h, 0.0, |ticks| - 1);
  }

  /** A history of that family: after a jump to level 2, an update without pressure at that instant leaves level 1. */
  lemma ZeroGapsShedOneLevel() returns (cfg: Config, ticks: seq<Tick>, lv: seq<nat>)
    ensures EarnedHistory(cfg, ticks, lv) && |ticks| == 2 && GapsAtMost(ticks, 1, 0.0) && LowFrom(cfg, ticks, 1, 0)
    ensures lv[1] == 2 && !SettlesBy(ticks, lv, 1, 0, ticks[1].now + SettleBound(cfg, 2, 0.0)) && lv[2] > 0
  {
    cfg, ticks, lv := INSTANT, [Tick(0.0, 2.0), Tick(0.0, 0.0)], [0, 2, 1];
    InstantIsEarned(cfg, ticks, lv);
    ZeroGapsMissTheBound(cfg, ticks, lv, 1, 0);
  }

  const INSTANT := Config([2048, 1024, 512], [1.0, 2.0, 3.0], [0.5, 1.5, 2.5], 0.0, 0.0)

  lemma InstantIsEarned(cfg: Config, ticks: seq<Tick>, lv: seq<nat>)
    requires cfg == INSTANT && ticks == [Tick(0.0, 2.0), Tick(0.0, 0.0)] && lv == [0, 2, 1]
    ensures EarnedHistory(cfg, ticks, lv)
  {
    JumpIsEarned(cfg, ticks, lv);
    FallIsEarned(cfg, ticks, lv);
  }

  lemma JumpIsEarned(cfg: Config, ticks: seq<Tick>, lv: seq<nat>)
    requires ValidConfig(cfg) && cfg.tightenHold == 0.0 && Recorded(ticks, lv) && |ticks| > 0
    requires lv[0] == 0 && lv[1] == 2 && cfg.tighten[1] <= ticks[0].p < cfg.tighten[2]
    ensures Earned(cfg, ticks, lv, 0)
  {
    assert Pressing(cfg, ticks, lv, 0, 1, 1) && Pressing(cfg, ticks, lv, 0, 1, 2);
  }

  lemma FallIsEarned(cfg: Config, ticks: seq<Tick>, lv: seq<nat>)
    requires ValidConfig(cfg) && cfg.relaxHold == 0.0 && Recorded(ticks, lv) && |ticks| > 1
    requires lv[1] == 2 && lv[2] == 1 && ticks[1].p < cfg.relax[0]
    ensures Earned(cfg, ticks, lv, 1)
  {
    assert cfg.relax[0] < cfg.relax[1] && cfg.relax[0] < cfg.tighten[2];
    assert Easing(cfg, ticks, lv, 1, 2, 2);
  }

  /** A level one above h, easing for relaxHold up to update k, is gone after k. */
  lemma SettledBefore(cfg: Config, ticks: seq<Tick>, lv: seq<nat>, a: nat, h: nat, k: nat)
    requires EarnedHistory(cfg, ticks, lv) && a <= k < |ticks| && lv[a] == h + 1 && LowFrom(cfg, ticks, a, h)
    requires ticks[k].now - ticks[a].now >= cfg.relaxHold
    ensures lv[k + 1] <= h
  {
    if m :| a <= m <= k && lv[m] <= h {
      LowNeverRaises(cfg, ticks, lv, m, k + 1, h);
    } else {
      forall m | a <= m < k + 1 ensures ticks[m].p < cfg.relax[h] && lv[m] == h + 1 {
        LowNeverRaises(cfg, ticks, lv, a, m, h);
      }
      assert Easing(cfg, ticks, lv, a, k + 1, h + 1);
      assert Earned(cfg, ticks, lv, k);
    }
  }

  /** The last level change in a..k-1. */
  lemma {:induction false} LastChange(lv: seq<nat>, a: nat, k: nat) returns (r: nat)
    requires a < k < |lv| && lv[a] != lv[k]
    ensures a <= r < k && lv[r] != lv[r + 1] == lv[k]
  {
    if lv[k - 1] != lv[k] {
      r := k - 1;
    } else {
      r := LastChange(lv, a, k - 1);
    }
  }

  lemma {:induction false} HoldsElapse(cfg: Config, ticks: seq<Tick>, lv: seq<nat>, a: nat, k: nat)
    requires EarnedHistory(cfg, ticks, lv) && a <= k < |ticks|
    requires lv[k + 1] < lv[a]
    requires a == 0 || lv[a - 1] != lv[a] || ticks[a - 1].p >= cfg.relax[lv[a] - 1]
    ensures ticks[k].now - ticks[a].now >= HoldTime(cfg, lv[a] - lv[k + 1])
    decreases k
  {
    assert Earned(cfg, ticks, lv, k);
    if lv[k + 1] >= lv[k] {
      HoldsElapse(cfg, ticks, lv, a, k - 1);
      MoreLevelsTakeLonger(cfg, lv[a] - lv[k + 1], lv[a] - lv[k], 1.0);
    } else {
      if a < k && lv[a] != lv[k] {
        var r := LastChange(lv, a, k);
        RelaxIsSpaced(cfg, ticks, lv, r, k);
        if lv[k] < lv[a] {
          HoldsElapse(cfg, ticks, lv, a, r);
        }
      } else {
        StreakStartsAfter(cfg, ticks, lv, a, k);
      }
    }
  }

  /** A relaxation from the level in force at a, with no streak running into a, has waited relaxHold since a. */
  lemma StreakStartsAfter(cfg: Config, ticks: seq<Tick>, lv: seq<nat>, a: nat, k: nat)
    requires EarnedHistory(cfg, ticks, lv) && a <= k < |ticks| && lv[k + 1] < lv[k] == lv[a]
    requires a == 0 || lv[a - 1] != lv[a] || ticks[a - 1].p >= cfg.relax[lv[a] - 1]
    ensures ticks[k].now - ticks[a].now >= cfg.relaxHold
  {
    assert Earned(cfg, ticks, lv, k);
    var j :| 0 <= j <= k && ticks[k].now - ticks[j].now >= cfg.relaxHold && Easing(cfg, ticks, lv, j, k + 1, lv[k]);
    assert j >= a;
  }

  /**
   Shedding n levels after update a takes at least n*relaxHold, whatever the pressure does, unless a
   relax streak was already running into a.
   */
  lemma NeverTooSoon(cfg: Config, ticks: seq<Tick>, lv: seq<nat>, a: nat, k: nat)
    requires EarnedHistory(cfg, ticks, lv) && a <= k < |ticks|
    requires lv[k + 1] < lv[a]
    requires a == 0 || lv[a - 1] != lv[a] || ticks[a - 1].p >= cfg.relax[lv[a] - 1]
    ensures ticks[k].now - ticks[a].now >= (lv[a] - lv[k + 1]) as real * cfg.relaxHold
  {
    HoldsElapse(cfg, ticks, lv, a, k);
    TimesInClosedForm(cfg, lv[a] - lv[k + 1], 0.0);
  }

  // ---------------------------------------------------------------- hysteresis

  function Clamp(l: nat, lo: nat, hi: nat): nat
    requires lo <= hi
  {
    if l < lo then lo else if l > hi then hi else l
  }

  ghost predicate ConstantFrom(ticks: seq<Tick>, a: nat, p: real) {
    forall m :: a <= m < |ticks| ==> ticks[m].p == p
  }

  /** The band of levels that pressure p neither tightens nor relaxes. */
  function BandLow(cfg: Config, p: real): (lo: nat)
    requires ValidConfig(cfg)
    ensures lo <= TIGHTEST
  {
    BisectRight(cfg.tighten, p)
  }

  function BandHigh(cfg: Config, p: real): (hi: nat)
    requires ValidConfig(cfg)
    ensures BandLow(cfg, p) <= hi <= TIGHTEST
  {
    var lo := BandLow(cfg, p);
    assert lo == 0 || (cfg.relax[lo - 1] < cfg.tighten[lo - 1] && cfg.tighten[lo - 1] <= p);
    BisectRight(cfg.relax, p)
  }

  /** Under constant pressure the level only ever moves towards the band and never through it. */
  lemma {:induction false} MovesTowardsBand(cfg: Config, ticks: seq<Tick>, lv: seq<nat>, a: nat, k: nat, p: real)
    requires EarnedHistory(cfg, ticks, lv) && a <= k <= |ticks| && ConstantFrom(ticks, a, p)
    ensures lv[a] <= lv[k] <= Clamp(lv[a], BandLow(cfg, p), BandHigh(cfg, p))
         || lv[a] >= lv[k] >= Clamp(lv[a], BandLow(cfg, p), BandHigh(cfg, p))
    decreases k - a
  {
    if a < k {
      MovesTowardsBand(cfg, ticks, lv, a, k - 1, p);
      assert Earned(cfg, ticks, lv, k - 1);
      var b, l := lv[k], lv[k - 1];
      if b > l {
        assert TightenDue(cfg, ticks, lv, k - 1, b);
        assert ticks[k - 1].p >= cfg.tighten[b - 1];
        assert b <= BandLow(cfg, p);
      } else if b < l {
        assert RelaxDue(cfg, ticks, lv, k - 1);
        assert ticks[k - 1].p < cfg.relax[l - 1];
        assert l > BandHigh(cfg, p);
      }
    }
  }

  /** How long constant pressure p may take to bring level l into its band. */
  function BandTime(cfg: Config, l: nat, p: real, d: real): real
    requires ValidConfig(cfg)
  {
    if l < BandLow(cfg, p) then cfg.tightenHold + d
    else if l > BandHigh(cfg, p) then SettleBound(cfg, l - BandHigh(cfg, p), d)
    else 0.0
  }

  /** When levels have to be shed, enough must happen. */
  predicate EnoughForBand(cfg: Config, l: nat, p: real, d: real, updates: nat)
    requires ValidConfig(cfg)
  {
    l > BandHigh(cfg, p) ==> EnoughHappens(cfg, d, updates, l - BandHigh(cfg, p))
  }

  /**
   Under constant pressure every update at or after the time to converge, less one gap, finds the start level clamped
   into the band: exactly when enough happens to shed what lies above it.
  */
  lemma InBandFrom(cfg: Config, ticks: seq<Tick>, lv: seq<nat>, a: nat, k: nat, p: real, d: real)
    requires EarnedHistory(cfg, ticks, lv) && a <= k < |ticks| && ConstantFrom(ticks, a, p)
    requires d >= 0.0 && GapsAtMost(ticks, a, d)
    requires ticks[k].now - ticks[a].now >= BandTime(cfg, lv[a], p, d) - d
    ensures lv[k + 1] == Clamp(lv[a], BandLow(cfg, p), BandHigh(cfg, p))
       <==> EnoughForBand(cfg, lv[a], p, d, k + 1 - a)
  {
    MovesTowardsBand(cfg, ticks, lv, a, k + 1, p);
    if lv[a] < BandLow(cfg, p) {
      HeldPressureTightens(cfg, ticks, lv, a, k, BandLow(cfg, p));
    } else if lv[a] > BandHigh(cfg, p) {
      SettledFrom(cfg, ticks, lv, a, BandHigh(cfg, p), d, k);
    }
  }

  /** The update after which the level is in the band: the first late enough, or the last when no time passes. */
  lemma ConvergingUpdate(cfg: Config, ticks: seq<Tick>, lv: seq<nat>, a: nat, p: real, d: real) returns (k: nat)
    requires EarnedHistory(cfg, ticks, lv) && a < |ticks| && d >= 0.0 && GapsAtMost(ticks, a, d)
    requires ticks[|ticks| - 1].now >= ticks[a].now + BandTime(cfg, lv[a], p, d) - d
    requires EnoughForBand(cfg, lv[a], p, d, |ticks| - a)
    ensures a <= k < |ticks|
    ensures BandTime(cfg, lv[a], p, d) - d <= ticks[k].now - ticks[a].now <= BandTime(cfg, lv[a], p, d)
    ensures lv[a] > BandHigh(cfg, p) && d == 0.0 ==> k == |ticks| - 1
  {
    if lv[a] > BandHigh(cfg, p) {
      var n := lv[a] - BandHigh(cfg, p);
      TimesInClosedForm(cfg, n, d);
      SettleTimeCoversHold(cfg, n, d);
    }
    if d == 0.0 && lv[a] > BandHigh(cfg, p) {
      k := |ticks| - 1;
      NoTimePasses(ticks, a, k);
    } else if BandLow(cfg, p) <= lv[a] <= BandHigh(cfg, p) {
      k := a;
    } else {
      k := FirstAtOrAfter(ticks, a, ticks[a].now + BandTime(cfg, lv[a], p, d) - d, d);
    }
  }

  /** Some update no later than t brings level l, for good. */
  ghost predicate ConvergesBy(ticks: seq<Tick>, lv: seq<nat>, a: nat, l: nat, t: real)
    requires |lv| == |ticks| + 1
  {
    exists k :: a <= k < |ticks| && ticks[k].now <= t && forall m :: k < m <= |ticks| ==> lv[m] == l
  }

  /**
   Under constant pressure the level converges to its start clamped into the band and never changes again: at once if
   it starts inside, within tightenHold + d from below, within n*(relaxHold+d) + (n-1)*d from n levels above, in every
   run that reaches the last d of that time; exactly when enough happens to shed what lies above the band.
  */
  lemma ConvergesToBand(cfg: Config, ticks: seq<Tick>, lv: seq<nat>, a: nat, p: real, d: real)
    requires EarnedHistory(cfg, ticks, lv) && a < |ticks| && ConstantFrom(ticks, a, p)
    requires d >= 0.0 && GapsAtMost(ticks, a, d)
    requires ticks[|ticks| - 1].now >= ticks[a].now + BandTime(cfg, lv[a], p, d) - d
    ensures ConvergesBy(ticks, lv, a, Clamp(lv[a], BandLow(cfg, p), BandHigh(cfg, p)),
                        ticks[a].now + BandTime(cfg, lv[a], p, d))
       <==> EnoughForBand(cfg, lv[a], p, d, |ticks| - a)
  {
    InBandFrom(cfg, ticks, lv, a, |ticks| - 1, p, d);
    if EnoughForBand(cfg, lv[a], p, d, |ticks| - a) {
      var k := ConvergingUpdate(cfg, ticks, lv, a, p, d);
      forall m | k < m <= |ticks| ensures lv[m] == Clamp(lv[a], BandLow(cfg, p), BandHigh(cfg, p)) {
        assert ticks[k].now <= ticks[m - 1].now;
        InBandFrom(cfg, ticks, lv, a, m - 1, p, d);
      }
    }
  }
}
