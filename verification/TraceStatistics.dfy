/** The probe's accumulator: time by depth and by level, and the episodes above each depth threshold. */
module TraceStatistics {
  import opened Arithmetic
  import opened DepthConservation
  import opened DepthReplay

  const LEVELS := 4
  const DEPTH_THRESHOLDS: seq<int> := [1, 2, 3]

  /** A stretch of simulated time with one depth and one level, after `served` dispatches. */
  datatype Span = Span(start: real, end: real, depth: nat, level: nat, served: nat)

  datatype Part = Whole | AtDepth(d: int) | AtLevel(l: int) | FromDepth(d: int)

  predicate In(part: Part, s: Span) {
    match part
    case Whole => true
    case AtDepth(d) => s.depth == d
    case AtLevel(l) => s.level == l
    case FromDepth(d) => s.depth >= d
  }

  /** Time spent in one part of the trace. */
  function Spent(part: Part, spans: seq<Span>): real {
    if |spans| == 0 then 0.0
    else
      var s := spans[|spans| - 1];
      Spent(part, spans[..|spans| - 1]) + if In(part, s) then s.end - s.start else 0.0
  }

  lemma SpentAppend(part: Part, spans: seq<Span>, s: Span)
    ensures Spent(part, spans + [s]) == Spent(part, spans) + if In(part, s) then s.end - s.start else 0.0
  {
    assert (spans + [s])[..|spans|] == spans;
  }

  lemma {:induction false} SpentConcat(part: Part, a: seq<Span>, b: seq<Span>)
    ensures Spent(part, a + b) == Spent(part, a) + Spent(part, b)
  {
    if |b| == 0 {
      assert a + b == a;
    } else {
      SpentConcat(part, a, b[..|b| - 1]);
      SpentAppend(part, a + b[..|b| - 1], b[|b| - 1]);
      assert a + b == a + b[..|b| - 1] + [b[|b| - 1]];
    }
  }

  /** The spans follow each other without a gap from `from` to `to`. */
  ghost predicate Contiguous(spans: seq<Span>, from: real, to: real) {
    if |spans| == 0 then from == to
    else
      var s := spans[|spans| - 1];
      s.start < s.end == to && Contiguous(spans[..|spans| - 1], from, s.start)
  }

  lemma {:induction false} ContiguousTime(spans: seq<Span>, from: real, to: real)
    requires Contiguous(spans, from, to)
    ensures Spent(Whole, spans) == to - from
  {
    if |spans| > 0 {
      ContiguousTime(spans[..|spans| - 1], from, spans[|spans| - 1].start);
    }
  }

  /** Grouping the trace by depth loses no time, from any depth up. */
  lemma {:induction false} DepthsCoverTrace(spans: seq<Span>, lo: int, hi: int, time: int -> real)
    requires forall k :: 0 <= k < |spans| ==> spans[k].depth <= hi
    requires forall d :: time(d) == Spent(AtDepth(d), spans)
    ensures Weigh(EVENLY, time, lo, hi) == Spent(FromDepth(lo), spans)
    decreases |spans|
  {
    if |spans| == 0 {
      WeighNothing(EVENLY, time, lo, hi);
    } else {
      var before, s := spans[..|spans| - 1], spans[|spans| - 1];
      var earlier := d => Spent(AtDepth(d), before);
      DepthsCoverTrace(before, lo, hi, earlier);
      WeighSteps(EVENLY, earlier, time, s.depth, s.end - s.start, lo, hi);
      assert Product(1.0, s.end - s.start) == s.end - s.start;
    }
  }

  lemma {:induction false} WholeIsFromZero(spans: seq<Span>)
    ensures Spent(FromDepth(0), spans) == Spent(Whole, spans)
  {
    if |spans| > 0 {
      WholeIsFromZero(spans[..|spans| - 1]);
    }
  }

  /** Grouping the trace by level loses no time. */
  lemma {:induction false} LevelsCoverTrace(spans: seq<Span>)
    requires forall k :: 0 <= k < |spans| ==> spans[k].level < LEVELS
    ensures Spent(AtLevel(0), spans) + Spent(AtLevel(1), spans) + Spent(AtLevel(2), spans) + Spent(AtLevel(3), spans)
        == Spent(Whole, spans)
  {
    if |spans| > 0 {
      LevelsCoverTrace(spans[..|spans| - 1]);
    }
  }

  ghost predicate Booked(totalTime: real, depthTime: map<int, real>, levelTime: seq<real>, spans: seq<Span>) {
    && |levelTime| == LEVELS
    && totalTime == Spent(Whole, spans)
    && (forall d :: Get(depthTime, d, 0.0) == Spent(AtDepth(d), spans))
    && (forall l :: 0 <= l < LEVELS ==> levelTime[l] == Spent(AtLevel(l), spans))
  }

  lemma BookedAppend(totalTime: real, depthTime: map<int, real>, levelTime: seq<real>, spans: seq<Span>, s: Span)
    requires Booked(totalTime, depthTime, levelTime, spans) && s.level < LEVELS
    ensures var duration := s.end - s.start;
            Booked(totalTime + duration, depthTime[s.depth := Get(depthTime, s.depth, 0.0) + duration],
                   levelTime[s.level := levelTime[s.level] + duration], spans + [s])
  {
    var duration := s.end - s.start;
    var depthTime' := depthTime[s.depth := Get(depthTime, s.depth, 0.0) + duration];
    SpentAppend(Whole, spans, s);
    forall d ensures Get(depthTime', d, 0.0) == Spent(AtDepth(d), spans + [s]) {
      SpentAppend(AtDepth(d), spans, s);
    }
    forall l | 0 <= l < LEVELS
      ensures levelTime[s.level := levelTime[s.level] + duration][l] == Spent(AtLevel(l), spans + [s])
    {
      SpentAppend(AtLevel(l), spans, s);
    }
  }

  /** Closed episodes and the running one add up to the time at or above each threshold. */
  ghost predicate Episodic(episodes: seq<seq<real>>, current: seq<real>, spans: seq<Span>) {
    && |episodes| == |current| == |DEPTH_THRESHOLDS|
    && (forall i :: 0 <= i < |DEPTH_THRESHOLDS| ==> current[i] >= 0.0)
    && (forall i :: 0 <= i < |DEPTH_THRESHOLDS| ==>
          Sum(episodes[i]) + current[i] == Spent(FromDepth(DEPTH_THRESHOLDS[i]), spans))
  }

  /** The time since the depth was last below d. */
  function Running(spans: seq<Span>, d: int): real {
    if |spans| == 0 then 0.0
    else
      var s := spans[|spans| - 1];
      if s.depth >= d then Running(spans[..|spans| - 1], d) + s.end - s.start else 0.0
  }

  /** The lengths of the stretches at depth d or more that ended with a drop. */
  function Ended(spans: seq<Span>, d: int): seq<real> {
    if |spans| == 0 then []
    else
      var before := spans[..|spans| - 1];
      if spans[|spans| - 1].depth >= d then Ended(before, d) else Closing(Ended(before, d), Running(before, d))
  }

  function Closing(ended: seq<real>, running: real): seq<real> {
    if running > 0.0 then ended + [running] else ended
  }

  /** The episodes of a whole trace, the one that reaches its end included. */
  function EpisodesIn(spans: seq<Span>, d: int): seq<real> {
    Closing(Ended(spans, d), Running(spans, d))
  }

  ghost predicate Tracks(ended: seq<real>, running: real, spans: seq<Span>, d: int) {
    ended == Ended(spans, d) && running == Running(spans, d)
  }

  ghost predicate Bounded(peakDepth: nat, spans: seq<Span>) {
    forall k :: 0 <= k < |spans| ==> spans[k].depth <= peakDepth && spans[k].level < LEVELS
  }

  class Totals {
    var totalTime: real
    var depthTime: map<int, real>
    var levelTime: seq<real>
    var peakDepth: nat
    var conditionMet: nat
    var clipsApplied: nat
    var episodes: seq<seq<real>>
    var current: seq<real>
    ghost var spans: seq<Span>

    /** Every accumulator equals the time its part of the recorded trace really took. */
    ghost predicate Valid()
      reads this
    {
      && Booked(totalTime, depthTime, levelTime, spans)
      && Episodic(episodes, current, spans)
      && Bounded(peakDepth, spans)
    }

    /** The episodes so far are those of this one trace. */
    ghost predicate Charted()
      reads `episodes, `current, `spans
    {
      |episodes| == |current| == |DEPTH_THRESHOLDS| && forall i :: 0 <= i < |DEPTH_THRESHOLDS| ==>
          Tracks(episodes[i], current[i], spans, DEPTH_THRESHOLDS[i])
    }

    constructor ()
      ensures Valid() && Charted() && spans == [] && conditionMet == clipsApplied == peakDepth == 0
    {
      totalTime := 0.0;
      depthTime := map[];
      levelTime := [0.0, 0.0, 0.0, 0.0];
      peakDepth := 0;
      conditionMet := 0;
      clipsApplied := 0;
      episodes := [[], [], []];
      current := [0.0, 0.0, 0.0];
      spans := [];
    }

    /** Closes the running episode of one threshold, if there is one. */
    method FinishEpisode(i: nat)
      requires i < |episodes| == |current| && current[i] >= 0.0
      modifies `episodes, `current
      ensures current == old(current)[i := 0.0]
      ensures |episodes| == old(|episodes|)
      ensures forall k :: 0 <= k < |episodes| && k != i ==> episodes[k] == old(episodes)[k]
      ensures Sum(episodes[i]) == old(Sum(episodes[i]) + current[i])
      ensures episodes[i] == Closing(old(episodes)[i], old(current)[i])
    {
      if current[i] > 0.0 {
        SumAppend(episodes[i], current[i]);
        episodes := episodes[i := episodes[i] + [current[i]]];
        current := current[i := 0.0];
      }
    }

    /** Extends or closes every threshold's episode. */
    method TrackEpisodes(duration: real, depth: nat, ghost s: Span)
      requires Episodic(episodes, current, spans)
      requires duration == s.end - s.start >= 0.0 && depth == s.depth
      modifies `episodes, `current
      ensures Episodic(episodes, current, spans + [s])
      ensures old(Charted()) ==>
          forall k :: 0 <= k < |current| ==> Tracks(episodes[k], current[k], spans + [s], DEPTH_THRESHOLDS[k])
    {
      assert (spans + [s])[..|spans|] == spans;
      for i := 0 to |DEPTH_THRESHOLDS|
        invariant |episodes| == |current| == |DEPTH_THRESHOLDS|
        invariant forall k :: 0 <= k < |current| ==> current[k] >= 0.0
        invariant forall k :: i <= k < |current| ==> episodes[k] == old(episodes)[k] && current[k] == old(current)[k]
        invariant forall k :: 0 <= k < i ==>
            Sum(episodes[k]) + current[k] == Spent(FromDepth(DEPTH_THRESHOLDS[k]), spans + [s])
        invariant old(Charted()) ==>
            forall k :: 0 <= k < i ==> Tracks(episodes[k], current[k], spans + [s], DEPTH_THRESHOLDS[k])
      {
        ghost var ended, running := episodes[i], current[i];
        assert old(Charted()) ==> Tracks(ended, running, spans, DEPTH_THRESHOLDS[i]);
        SpentAppend(FromDepth(DEPTH_THRESHOLDS[i]), spans, s);
        if depth >= DEPTH_THRESHOLDS[i] {
          current := current[i := current[i] + duration];
        } else {
          FinishEpisode(i);
        }
      }
    }

    /** Adds a duration to the totals. */
    method Book(duration: real, depth: nat, level: nat, ghost s: Span)
      requires Booked(totalTime, depthTime, levelTime, spans) && Bounded(peakDepth, spans)
      requires duration == s.end - s.start && depth == s.depth && level == s.level < LEVELS
      modifies `totalTime, `depthTime, `levelTime, `peakDepth
      ensures Booked(totalTime, depthTime, levelTime, spans + [s]) && Bounded(peakDepth, spans + [s])
      ensures peakDepth >= old(peakDepth)
    {
      BookedAppend(totalTime, depthTime, levelTime, spans, s);
      totalTime := totalTime + duration;
      depthTime := depthTime[depth := Get(depthTime, depth, 0.0) + duration];
      levelTime := levelTime[level := levelTime[level] + duration];
      peakDepth := if depth > peakDepth then depth else peakDepth;
    }

    /** Books one stretch of time; a negative one is refused, an empty one ignored. */
    method AddInterval(start: real, end: real, depth: nat, level: nat, ghost served: nat) returns (ok: bool)
      requires Valid() && level < LEVELS
      modifies this
      ensures Valid() && ok == (start <= end) && (old(Charted()) ==> Charted())
      ensures spans == if start < end then old(spans) + [Span(start, end, depth, level, served)] else old(spans)
      ensures peakDepth >= old(peakDepth) && conditionMet == old(conditionMet) && clipsApplied == old(clipsApplied)
    {
      var duration := end - start;
      if duration < 0.0 {
        return false;
      }
      if duration == 0.0 {
        return true;
      }
      ghost var s := Span(start, end, depth, level, served);
      Book(duration, depth, level, s);
      TrackEpisodes(duration, depth, s);
      spans := spans + [s];
      return true;
    }

    method SeeDepth(depth: nat)
      requires Valid()
      modifies `peakDepth
      ensures Valid() && peakDepth >= depth && peakDepth >= old(peakDepth)
    {
      peakDepth := if depth > peakDepth then depth else peakDepth;
    }

    method CountClip(met: bool, applied: bool)
      requires Valid()
      modifies `conditionMet, `clipsApplied
      ensures Valid()
      ensures conditionMet == old(conditionMet) + (if met then 1 else 0)
      ensures clipsApplied == old(clipsApplied) + (if applied then 1 else 0)
    {
      conditionMet := conditionMet + if met then 1 else 0;
      clipsApplied := clipsApplied + if applied then 1 else 0;
    }

    /** Closes the episodes that reach the end of the trace. */
    method FinishEpisodes()
      requires Valid()
      modifies `episodes, `current
      ensures Valid() && Finished()
      ensures |episodes| == |DEPTH_THRESHOLDS|
      ensures old(Charted()) ==>
          forall i :: 0 <= i < |DEPTH_THRESHOLDS| ==> episodes[i] == EpisodesIn(spans, DEPTH_THRESHOLDS[i])
    {
      for i := 0 to |DEPTH_THRESHOLDS|
        invariant Episodic(episodes, current, spans)
        invariant forall k :: 0 <= k < i ==> current[k] == 0.0
        invariant old(Charted()) ==>
            forall k :: 0 <= k < i ==> episodes[k] == EpisodesIn(spans, DEPTH_THRESHOLDS[k])
        invariant forall k :: i <= k < |current| ==> episodes[k] == old(episodes)[k] && current[k] == old(current)[k]
      {
        FinishEpisode(i);
      }
    }

    predicate Finished()
      reads this
    {
      forall i :: 0 <= i < |current| ==> current[i] == 0.0
    }

    method MergeTimes(other: Totals)
      requires Booked(totalTime, depthTime, levelTime, spans) && other != this
      requires Booked(other.totalTime, other.depthTime, other.levelTime, other.spans)
      modifies `totalTime, `depthTime, `levelTime
      ensures Booked(totalTime, depthTime, levelTime, spans + other.spans)
    {
      BookedConcat(totalTime, depthTime, levelTime, spans, other.totalTime, other.depthTime, other.levelTime,
          other.spans);
      totalTime := totalTime + other.totalTime;
      depthTime := AddTimes(depthTime, other.depthTime);
      levelTime := AddEach(levelTime, other.levelTime);
    }

    /**
     Adds another trace's totals. Times, depths and levels describe both traces; an episode still running in the
     other trace is dropped, so the episodes describe both exactly when none is.
    */
    method Merge(other: Totals)
      requires Valid() && other.Valid() && other != this
      modifies this
      ensures spans == old(spans) + other.spans
      ensures Booked(totalTime, depthTime, levelTime, spans) && Bounded(peakDepth, spans)
      ensures |episodes| == |other.episodes| == old(|episodes|) && current == old(current)
      ensures forall i :: 0 <= i < |episodes| ==> episodes[i] == old(episodes)[i] + other.episodes[i]
      ensures Valid() <==> other.Finished()
      ensures conditionMet == old(conditionMet) + other.conditionMet
      ensures clipsApplied == old(clipsApplied) + other.clipsApplied
      ensures peakDepth == if other.peakDepth > old(peakDepth) then other.peakDepth else old(peakDepth)
    {
      EpisodicConcat(episodes, current, spans, other.episodes, other.current, other.spans);
      var peak := if other.peakDepth > peakDepth then other.peakDepth else peakDepth;
      BoundedConcat(peakDepth, spans, other.peakDepth, other.spans, peak);
      MergeTimes(other);
      peakDepth := peak;
      conditionMet := conditionMet + other.conditionMet;
      clipsApplied := clipsApplied + other.clipsApplied;
      episodes := Extended(episodes, other.episodes);
      spans := spans + other.spans;
    }
  }

  // ---------------------------------------------------------------- merging two traces

  function AddTimes(a: map<int, real>, b: map<int, real>): map<int, real> {
    map d | d in a.Keys + b.Keys :: Get(a, d, 0.0) + Get(b, d, 0.0)
  }

  function AddEach(a: seq<real>, b: seq<real>): seq<real>
    requires |a| == |b|
  {
    seq(|a|, i requires 0 <= i < |a| => a[i] + b[i])
  }

  function Extended(a: seq<seq<real>>, b: seq<seq<real>>): seq<seq<real>>
    requires |a| == |b|
  {
    seq(|a|, i requires 0 <= i < |a| => a[i] + b[i])
  }

  lemma BookedConcat(
    total: real, depths: map<int, real>, levels: seq<real>, spans: seq<Span>,
    total': real, depths': map<int, real>, levels': seq<real>, spans': seq<Span>)
    requires Booked(total, depths, levels, spans) && Booked(total', depths', levels', spans')
    ensures Booked(total + total', AddTimes(depths, depths'), AddEach(levels, levels'), spans + spans')
  {
    SpentConcat(Whole, spans, spans');
    forall d ensures Get(AddTimes(depths, depths'), d, 0.0) == Spent(AtDepth(d), spans + spans') {
      SpentConcat(AtDepth(d), spans, spans');
      assert Get(depths, d, 0.0) == Spent(AtDepth(d), spans) && Get(depths', d, 0.0) == Spent(AtDepth(d), spans');
    }
    forall l | 0 <= l < LEVELS ensures AddEach(levels, levels')[l] == Spent(AtLevel(l), spans + spans') {
      SpentConcat(AtLevel(l), spans, spans');
    }
  }

  lemma BoundedConcat(peak: nat, spans: seq<Span>, peak': nat, spans': seq<Span>, highest: nat)
    requires Bounded(peak, spans) && Bounded(peak', spans') && peak <= highest && peak' <= highest
    ensures Bounded(highest, spans + spans')
  {
  }

  lemma {:induction false} SumConcat(a: seq<real>, b: seq<real>)
    ensures Sum(a + b) == Sum(a) + Sum(b)
  {
    if |b| == 0 {
      assert a + b == a;
    } else {
      SumConcat(a, b[..|b| - 1]);
      SumAppend(a + b[..|b| - 1], b[|b| - 1]);
      assert a + b == a + b[..|b| - 1] + [b[|b| - 1]];
    }
  }

  lemma EpisodicConcat(
    episodes: seq<seq<real>>, current: seq<real>, spans: seq<Span>,
    episodes': seq<seq<real>>, current': seq<real>, spans': seq<Span>)
    requires Episodic(episodes, current, spans) && Episodic(episodes', current', spans')
    ensures Episodic(Extended(episodes, episodes'), current, spans + spans')
       <==> forall i :: 0 <= i < |current'| ==> current'[i] == 0.0
  {
    var both := Extended(episodes, episodes');
    forall i | 0 <= i < |DEPTH_THRESHOLDS|
      ensures Sum(both[i]) + current[i] + current'[i] == Spent(FromDepth(DEPTH_THRESHOLDS[i]), spans + spans')
    {
      SumConcat(episodes[i], episodes'[i]);
      SpentConcat(FromDepth(DEPTH_THRESHOLDS[i]), spans, spans');
    }
    if Episodic(both, current, spans + spans') {
      forall i | 0 <= i < |current'| ensures current'[i] == 0.0 {
        assert Sum(both[i]) + current[i] == Spent(FromDepth(DEPTH_THRESHOLDS[i]), spans + spans');
      }
    }
  }
}
