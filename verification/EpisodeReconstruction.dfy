/**
 The probe's own reconstruction of the depth episodes, one sweep per threshold: it finds the same episodes as the
 single sweep of the depth replay.
*/
module EpisodeReconstruction {
  import opened DepthReplay
  import opened Wrappers

  /** Opens or closes the episode for the gap before the next event. */
  method TrackGap(ghost rows: seq<Interval>, ts: seq<real>, k: nat, threshold: int, depth: int, start: Option<real>,
      durations: seq<real>)
    returns (start': Option<real>, durations': seq<real>)
    requires 0 < k < |ts| && ts[k - 1] < ts[k] && depth == Count(rows, ts[k - 1])
    requires start == EpisodeStart(rows, ts, k - 1, threshold) && durations == EndedEpisodes(rows, ts, k - 1, threshold)
    ensures start' == EpisodeStart(rows, ts, k, threshold) && durations' == EndedEpisodes(rows, ts, k, threshold)
  {
    start', durations' := start, durations;
    if ts[k] > ts[k - 1] {
      if depth >= threshold && start.None? {
        start' := Some(ts[k - 1]);
      } else if depth < threshold && start.Some? {
        durations' := durations + [ts[k - 1] - start.value];
        start' := None;
      }
    }
  }

  /** Takes one event; the depth never becomes negative. */
  method TakeEvent(ghost rows: seq<Interval>, ghost ts: seq<real>, ghost k: nat, change: int, depth: int)
      returns (r: Result<int, ReplayError>)
    requires AllValid(rows) && Covers(ts, rows) && k < |ts| && change == Net(rows, ts[k])
    requires depth == if k == 0 then 0 else Count(rows, ts[k - 1])
    ensures r == Success(Count(rows, ts[k]))
  {
    CountSteps(rows, ts, k);
    if depth + change < 0 {
      return Failure(NegativeDepth);
    }
    r := Success(depth + change);
  }

  /** Sweeps the event table once for one threshold; neither of its errors can fire. */
  method SweepThreshold(ghost rows: seq<Interval>, ts: seq<real>, events: map<real, int>, threshold: int)
    returns (r: Result<seq<real>, ReplayError>)
    requires AllValid(rows) && Covers(ts, rows) && |ts| > 0
    requires Tallies(events, rows) && ts == Times(rows)
    ensures r == Success(EpisodesOf(rows, ts, threshold))
  {
    var depth := 0;
    var start: Option<real> := None;
    var durations: seq<real> := [];
    for k := 0 to |ts|
      invariant depth == if k == 0 then 0 else Count(rows, ts[k - 1])
      invariant start == EpisodeStart(rows, ts, if k == 0 then 0 else k - 1, threshold)
      invariant durations == EndedEpisodes(rows, ts, if k == 0 then 0 else k - 1, threshold)
    {
      if k > 0 {
        start, durations := TrackGap(rows, ts, k, threshold, depth, start, durations);
      }
      assert ts[k] in events && Get(events, ts[k], 0) == Net(rows, ts[k]);
      var taken := TakeEvent(rows, ts, k, events[ts[k]], depth);
      if taken.Failure? {
        return Failure(NegativeDepth);
      }
      depth := taken.value;
    }
    NothingWaitsAtEnd(rows, ts);
    if depth != 0 {
      return Failure(NotClosed);
    }
    r := Success(Closed(start, ts[|ts| - 1], durations));
  }

  /** Finds the episodes of every threshold, or fails on an invalid interval or an empty trace. */
  method Reconstruct(rows: seq<Interval>, thresholds: seq<int>) returns (r: Result<seq<seq<real>>, ReplayError>)
    requires |thresholds| > 0
    ensures r.Success? <==> AllValid(rows) && |rows| > 0
    ensures r.Failure? ==> r.error == if AllValid(rows) then NotClosed else InvalidInterval
    ensures r.Success? ==> |r.value| == |thresholds|
    ensures r.Success? ==> |Times(rows)| > 0 && forall i :: 0 <= i < |thresholds| ==>
        r.value[i] == EpisodesOf(rows, Times(rows), thresholds[i])
  {
    var built := BuildEvents(rows);
    if built.Failure? {
      return Failure(InvalidInterval);
    }
    var ts := Times(rows);
    TimesCover(rows);
    if |ts| == 0 {
      return Failure(NotClosed);
    }
    var durations: seq<seq<real>> := [];
    for i := 0 to |thresholds|
      invariant |durations| == i
      invariant forall k :: 0 <= k < i ==> durations[k] == EpisodesOf(rows, ts, thresholds[k])
    {
      var swept := SweepThreshold(rows, ts, built.value, thresholds[i]);
      durations := durations + [swept.value];
    }
    r := Success(durations);
  }
}
