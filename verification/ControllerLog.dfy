/**
 Decision logs and the histories behind them: a log that one controller wrote determines the signals, pressures and
 levels it went through, and so inherits every result about controller histories.
*/
module ControllerLog {
  import opened AdaptiveClipping
  import opened ControllerHistory
  import opened ThrashCheck

  /** What a controller went through: before the first update, and after each one. */
  datatype History = History(signals: seq<Signal>, ticks: seq<Tick>, states: seq<LevelState>)

  const BEGINNING := History([QUIET], [], [INITIAL])

  /** Update k of the history is what decision k records. */
  ghost predicate RecordsAt(cfg: Config, decay: real -> real, log: seq<Decision>, h: History, k: nat)
    requires Shaped(cfg) && k < |log| == |h.ticks| && |h.signals| == |h.states| == |log| + 1
    requires WellFormed(h.states[k]) && WellFormed(h.states[k + 1])
  {
    var signal, d := h.signals[k + 1], log[k];
    && signal == Observe(decay, h.signals[k], d.qInst, d.time)
    && h.ticks[k] == Tick(d.time, Pressure(signal))
    && d == Decision(d.time, d.qInst, signal.qBar, h.states[k].level, h.states[k + 1].level,
                     Cap(cfg, h.states[k + 1].level), Label(cfg, h.states[k], Pressure(signal), d.time))
  }

  /** The log was written, decision by decision, by one controller with history h. */
  ghost predicate Written(cfg: Config, decay: real -> real, log: seq<Decision>, h: History) {
    && |h.ticks| == |log| && |h.signals| == |h.states| == |log| + 1
    && IsRun(cfg, h.ticks, h.states) && h.signals[0] == QUIET
    && forall k :: 0 <= k < |log| ==> RecordsAt(cfg, decay, log, h, k)
  }

  /** Where the controller of the history stands now. */
  ghost predicate EndsIn(h: History, signal: Signal, levels: LevelState) {
    && |h.signals| > 0 && |h.states| > 0
    && h.signals[|h.signals| - 1] == signal && h.states[|h.states| - 1] == levels
  }

  lemma NothingWritten(cfg: Config, decay: real -> real)
    requires ValidConfig(cfg)
    ensures Written(cfg, decay, [], BEGINNING) && EndsIn(BEGINNING, QUIET, INITIAL)
  {
  }

  function Continued(h: History, d: Decision, signal: Signal, levels: LevelState): History {
    History(h.signals + [signal], h.ticks + [Tick(d.time, Pressure(signal))], h.states + [levels])
  }

  /** d is what a controller at signal and levels decides about depth q, which leaves it at signal' and levels'. */
  ghost predicate DecidedBy(
    cfg: Config, decay: real -> real, signal: Signal, levels: LevelState, q: nat, now: real,
    d: Decision, signal': Signal, levels': LevelState)
  {
    && Shaped(cfg) && WellFormed(levels)
    && signal' == Observe(decay, signal, q, now) && levels' == Step(cfg, levels, Pressure(signal'), now)
    && d == Decision(now, q, signal'.qBar, levels.level, levels'.level, Cap(cfg, levels'.level),
                     Label(cfg, levels, Pressure(signal'), now))
  }

  /** One more update extends the history, as long as the clock has not gone back. */
  lemma UpdateExtends(
    cfg: Config, decay: real -> real, log: seq<Decision>, h: History, signal: Signal, levels: LevelState,
    q: nat, now: real, d: Decision, signal': Signal, levels': LevelState)
    requires Written(cfg, decay, log, h) && EndsIn(h, signal, levels)
    requires signal.last.Some? ==> signal.last.value <= now
    requires DecidedBy(cfg, decay, signal, levels, q, now, d, signal', levels')
    ensures Written(cfg, decay, log + [d], Continued(h, d, signal', levels'))
    ensures EndsIn(Continued(h, d, signal', levels'), signal', levels')
  {
    var h', log' := Continued(h, d, signal', levels'), log + [d];
    TimesContinue(cfg, decay, log, h, now);
    forall k | 0 <= k < |log'| ensures StepsAt(cfg, h'.ticks, h'.states, k) {
      if k < |log| {
        assert StepsAt(cfg, h.ticks, h.states, k);
      }
    }
    assert IsRun(cfg, h'.ticks, h'.states);
    forall k | 0 <= k < |log'| ensures RecordsAt(cfg, decay, log', h', k) {
      if k < |log| {
        assert RecordsAt(cfg, decay, log, h, k);
      }
    }
  }

  /** Some controller wrote the log and now stands at the signal and the levels. */
  ghost predicate Authored(cfg: Config, decay: real -> real, log: seq<Decision>, signal: Signal, levels: LevelState) {
    exists h: History :: Written(cfg, decay, log, h) && EndsIn(h, signal, levels)
  }

  lemma UpdateIsAuthored(
    cfg: Config, decay: real -> real, log: seq<Decision>, signal: Signal, levels: LevelState,
    q: nat, now: real, d: Decision, signal': Signal, levels': LevelState)
    requires Authored(cfg, decay, log, signal, levels)
    requires signal.last.Some? ==> signal.last.value <= now
    requires DecidedBy(cfg, decay, signal, levels, q, now, d, signal', levels')
    ensures Authored(cfg, decay, log + [d], signal', levels')
  {
    var h :| Written(cfg, decay, log, h) && EndsIn(h, signal, levels);
    UpdateExtends(cfg, decay, log, h, signal, levels, q, now, d, signal', levels');
    assert Written(cfg, decay, log + [d], Continued(h, d, signal', levels'));
  }

  /** No earlier update has a later time than the signal remembers. */
  lemma TimesContinue(cfg: Config, decay: real -> real, log: seq<Decision>, h: History, now: real)
    requires Written(cfg, decay, log, h)
    requires h.signals[|log|].last.Some? ==> h.signals[|log|].last.value <= now
    ensures forall k :: 0 <= k < |log| ==> h.ticks[k].now <= now
  {
    if |log| > 0 {
      assert RecordsAt(cfg, decay, log, h, |log| - 1);
      assert h.ticks[|log| - 1].now <= now;
    }
  }

  /** A written log is an earned history, and its decisions are that history's times and levels. */
  lemma LogsAreEarned(cfg: Config, decay: real -> real, log: seq<Decision>, h: History)
    requires Written(cfg, decay, log, h)
    ensures EarnedHistory(cfg, h.ticks, Levels(h.states))
    ensures forall k :: 0 <= k < |log| ==>
              && log[k].time == h.ticks[k].now
              && log[k].oldLevel == Levels(h.states)[k] && log[k].newLevel == Levels(h.states)[k + 1]
  {
    RunsAreEarned(cfg, h.ticks, h.states);
    forall k | 0 <= k < |log|
      ensures log[k].time == h.ticks[k].now
      ensures log[k].oldLevel == Levels(h.states)[k] && log[k].newLevel == Levels(h.states)[k + 1]
    {
      assert RecordsAt(cfg, decay, log, h, k);
    }
  }

  // ---------------------------------------------------------------- the thrash gate on written logs

  /** One repetition's log and the history of the controller that wrote it. */
  datatype Episode = Episode(log: seq<Decision>, history: History)

  function FactOf(repetition: nat, d: Decision): Fact {
    Fact(repetition, d.time, d.oldLevel, d.newLevel)
  }

  /** facts[n] is decision at[n] of its repetition's log; decisions of a repetition keep their order. */
  ghost predicate TakenFrom(cfg: Config, decay: real -> real, logs: seq<Episode>, facts: seq<Fact>, at: seq<nat>) {
    && (forall i :: 0 <= i < |logs| ==> Written(cfg, decay, logs[i].log, logs[i].history))
    && |at| == |facts|
    && (forall n :: 0 <= n < |facts| ==>
          && facts[n].repetition < |logs| && at[n] < |logs[facts[n].repetition].log|
          && facts[n] == FactOf(facts[n].repetition, logs[facts[n].repetition].log[at[n]]))
    && (forall n, m :: 0 <= n < m < |facts| && facts[n].repetition == facts[m].repetition ==> at[n] < at[m])
  }

  /** On any sub-log of written logs, the gate never reports a violated hold. */
  lemma WrittenLogsNeverThrash(cfg: Config, decay: real -> real, logs: seq<Episode>, facts: seq<Fact>, at: seq<nat>)
    requires TakenFrom(cfg, decay, logs, facts, at)
    ensures !Hasty(Transitions(facts), |Transitions(facts)|, cfg.tightenHold, cfg.relaxHold)
  {
    var runs :=
        seq(|logs|, i requires 0 <= i < |logs| => Repetition(logs[i].history.ticks, Levels(logs[i].history.states)));
    forall i | 0 <= i < |runs| ensures EarnedHistory(cfg, runs[i].ticks, runs[i].levels) {
      LogsAreEarned(cfg, decay, logs[i].log, logs[i].history);
    }
    forall n | 0 <= n < |facts|
      ensures facts[n].repetition < |runs| && at[n] < |runs[facts[n].repetition].ticks|
      ensures facts[n] == FactAt(runs, facts[n].repetition, at[n])
    {
      var e := logs[facts[n].repetition];
      LogsAreEarned(cfg, decay, e.log, e.history);
    }
    ControllerNeverThrashes(cfg, runs, facts, at);
  }
}
