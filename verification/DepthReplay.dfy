/**
 Rebuilding the waiting depth from recorded intervals: the timestamp sweep of the depth replay, proved against the set
 of waiting requests.
*/
module DepthReplay {
  import opened Arithmetic
  import opened Wrappers

  /** One record's time in the queue; a record without a dispatch never left it by dispatch. */
  datatype Interval = Interval(enqueue: real, dispatch: Option<real>)

  predicate Valid(r: Interval) {
    r.dispatch.Some? && r.enqueue <= r.dispatch.value
  }

  predicate AllValid(rows: seq<Interval>) {
    forall i :: 0 <= i < |rows| ==> Valid(rows[i])
  }

  function Waits(r: Interval, t: real): int {
    if r.dispatch.Some? && r.enqueue <= t < r.dispatch.value then 1 else 0
  }

  /** The number of requests with enqueue <= t < dispatch. */
  function Count(rows: seq<Interval>, t: real): (n: int)
    ensures n >= 0
  {
    if |rows| == 0 then 0 else Count(rows[..|rows| - 1], t) + Waits(rows[|rows| - 1], t)
  }

  // ---------------------------------------------------------------- event times

  ghost predicate Strict(ts: seq<real>) {
    forall i, j :: 0 <= i < j < |ts| ==> ts[i] < ts[j]
  }

  function InsertTime(ts: seq<real>, t: real): (r: seq<real>)
    ensures forall x :: x in r <==> x == t || x in ts
  {
    if |ts| == 0 || t < ts[0] then [t] + ts
    else if t == ts[0] then ts
    else
      assert ts == [ts[0]] + ts[1..];
      [ts[0]] + InsertTime(ts[1..], t)
  }

  lemma {:induction false} InsertTimeStrict(ts: seq<real>, t: real)
    requires Strict(ts)
    ensures Strict(InsertTime(ts, t))
  {
    if |ts| > 0 && t > ts[0] {
      InsertTimeStrict(ts[1..], t);
      var rest := InsertTime(ts[1..], t);
      forall j | 0 <= j < |rest| ensures ts[0] < rest[j] {
        assert rest[j] in rest;
      }
    }
  }

  function End(r: Interval): real {
    if r.dispatch.Some? then r.dispatch.value else r.enqueue
  }

  /** The distinct event times in order. */
  function Times(rows: seq<Interval>): (ts: seq<real>)
    ensures Strict(ts)
  {
    if |rows| == 0 then []
    else
      var ts, r := Times(rows[..|rows| - 1]), rows[|rows| - 1];
      InsertTimeStrict(ts, r.enqueue);
      InsertTimeStrict(InsertTime(ts, r.enqueue), End(r));
      InsertTime(InsertTime(ts, r.enqueue), End(r))
  }

  /** ts lists every event time of the rows in increasing order. */
  ghost predicate Covers(ts: seq<real>, rows: seq<Interval>) {
    Strict(ts) && forall i :: 0 <= i < |rows| ==> rows[i].enqueue in ts && End(rows[i]) in ts
  }

  lemma {:induction false} TimesCover(rows: seq<Interval>)
    ensures Covers(Times(rows), rows)
  {
    if |rows| > 0 {
      var before, r := rows[..|rows| - 1], rows[|rows| - 1];
      TimesCover(before);
      var entered := InsertTime(Times(before), r.enqueue);
      assert Times(rows) == InsertTime(entered, End(r));
      forall i | 0 <= i < |rows| ensures rows[i].enqueue in Times(rows) && End(rows[i]) in Times(rows) {
        if i < |before| {
          assert before[i].enqueue in entered && End(before[i]) in entered;
        }
      }
    }
  }

  /** Enqueues minus dispatches at exactly t. */
  function Net(rows: seq<Interval>, t: real): int {
    if |rows| == 0 then 0 else Net(rows[..|rows| - 1], t) + RowNet(rows[|rows| - 1], t)
  }

  function RowNet(r: Interval, t: real): int {
    (if r.enqueue == t then 1 else 0) - (if End(r) == t then 1 else 0)
  }

  lemma CoversPrefix(ts: seq<real>, rows: seq<Interval>)
    requires Covers(ts, rows) && |rows| > 0
    ensures Covers(ts, rows[..|rows| - 1])
  {
  }

  /** Crossing one timestamp changes the waiting set by its net events. */
  lemma {:induction false} CountSteps(rows: seq<Interval>, ts: seq<real>, k: nat)
    requires AllValid(rows) && Covers(ts, rows) && k < |ts|
    ensures Count(rows, ts[k]) == (if k == 0 then 0 else Count(rows, ts[k - 1])) + Net(rows, ts[k])
    decreases |rows|
  {
    if |rows| > 0 {
      var r := rows[|rows| - 1];
      CoversPrefix(ts, rows);
      CountSteps(rows[..|rows| - 1], ts, k);
      var i :| 0 <= i < |ts| && ts[i] == r.enqueue;
      var j :| 0 <= j < |ts| && ts[j] == End(r);
    }
  }

  lemma {:induction false} NothingWaitsAtEnd(rows: seq<Interval>, ts: seq<real>)
    requires Covers(ts, rows) && |ts| > 0
    ensures Count(rows, ts[|ts| - 1]) == 0
    decreases |rows|
  {
    if |rows| > 0 {
      CoversPrefix(ts, rows);
      NothingWaitsAtEnd(rows[..|rows| - 1], ts);
      var j :| 0 <= j < |ts| && ts[j] == End(rows[|rows| - 1]);
    }
  }

  // ---------------------------------------------------------------- what the sweep measures

  /** Time among the first n gaps spent with exactly d requests waiting. */
  function TimeAt(rows: seq<Interval>, ts: seq<real>, n: nat, d: int): real
    requires n < |ts|
  {
    if n == 0 then 0.0
    else TimeAt(rows, ts, n - 1, d) + if Count(rows, ts[n - 1]) == d then ts[n] - ts[n - 1] else 0.0
  }

  /** Time among the first n gaps spent with at least d requests waiting. */
  function TimeAtLeast(rows: seq<Interval>, ts: seq<real>, n: nat, d: int): real
    requires n < |ts|
  {
    if n == 0 then 0.0
    else TimeAtLeast(rows, ts, n - 1, d) + if Count(rows, ts[n - 1]) >= d then ts[n] - ts[n - 1] else 0.0
  }

  /** x is the largest depth after any event, or zero when nothing ever waits. */
  ghost predicate IsPeak(rows: seq<Interval>, x: int) {
    && (forall t :: t in Times(rows) ==> Count(rows, t) <= x)
    && (x == 0 || exists t :: t in Times(rows) && Count(rows, t) == x)
    && x >= 0
  }

  lemma PeakIsUnique(rows: seq<Interval>, x: int, y: int)
    requires IsPeak(rows, x) && IsPeak(rows, y)
    ensures x == y
  {
    if x != 0 {
      var t :| t in Times(rows) && Count(rows, t) == x;
    }
    if y != 0 {
      var t :| t in Times(rows) && Count(rows, t) == y;
    }
  }

  // ---------------------------------------------------------------- the timestamp sweep

  /** The value of a key, or a default. */
  function Get<K, V>(m: map<K, V>, k: K, default: V): V {
    if k in m then m[k] else default
  }

  datatype ReplayError = InvalidInterval | NotMonotonic | NegativeDepth | NotClosed

  datatype Summary = Summary(timeByDepth: map<int, real>, observed: real, episodes: seq<seq<real>>, peak: int)

  /** events holds the net event count of every event time, and of no other time a non-zero one. */
  ghost predicate Tallies(events: map<real, int>, rows: seq<Interval>) {
    && (forall t :: Get(events, t, 0) == Net(rows, t))
    && (forall t :: t in Times(rows) ==> t in events)
  }

  function WithRow(events: map<real, int>, row: Interval): map<real, int>
    requires Valid(row)
  {
    var entered := events[row.enqueue := Get(events, row.enqueue, 0) + 1];
    entered[row.dispatch.value := Get(entered, row.dispatch.value, 0) - 1]
  }

  lemma TallyRow(events: map<real, int>, rows: seq<Interval>, row: Interval)
    requires Tallies(events, rows) && Valid(row)
    ensures Tallies(WithRow(events, row), rows + [row])
  {
    assert (rows + [row])[..|rows|] == rows;
    forall t ensures Get(WithRow(events, row), t, 0) == Net(rows + [row], t) {
      assert Get(events, t, 0) == Net(rows, t);
    }
  }

  /** Builds the net event count of every timestamp, or fails on an invalid interval. */
  method BuildEvents(rows: seq<Interval>) returns (r: Result<map<real, int>, ReplayError>)
    ensures r.Success? <==> AllValid(rows)
    ensures r.Failure? ==> r.error == InvalidInterval
    ensures r.Success? ==> Tallies(r.value, rows)
  {
    var events: map<real, int> := map[];
    for i := 0 to |rows|
      invariant AllValid(rows[..i])
      invariant Tallies(events, rows[..i])
    {
      assert rows[..i + 1] == rows[..i] + [rows[i]];
      if !Valid(rows[i]) {
        assert !AllValid(rows);
        return Result.Failure(InvalidInterval);
      }
      TallyRow(events, rows[..i], rows[i]);
      events := WithRow(events, rows[i]);
    }
    assert rows[..|rows|] == rows;
    r := Result.Success(events);
  }

  /** Opens or closes the episode of every threshold for the gap that starts at `previous`. */
  method TrackEpisodes(
    ghost rows: seq<Interval>, ghost ts: seq<real>, ghost n: nat, thresholds: seq<int>, depth: int, previous: real,
    starts: seq<Option<real>>, episodes: seq<seq<real>>)
    returns (starts': seq<Option<real>>, episodes': seq<seq<real>>)
    requires n + 1 < |ts| && previous == ts[n] && depth == Count(rows, ts[n])
    requires Tracked(rows, ts, n, thresholds, starts, episodes)
    ensures Tracked(rows, ts, n + 1, thresholds, starts', episodes')
  {
    starts', episodes' := starts, episodes;
    for i := 0 to |thresholds|
      invariant |starts'| == |episodes'| == |thresholds|
      invariant forall k :: i <= k < |thresholds| ==> starts'[k] == starts[k] && episodes'[k] == episodes[k]
      invariant forall k :: 0 <= k < i ==>
                  starts'[k] == EpisodeStart(rows, ts, n + 1, thresholds[k])
                      && episodes'[k] == EndedEpisodes(rows, ts, n + 1, thresholds[k])
    {
      if depth >= thresholds[i] {
        if starts'[i].None? {
          starts' := starts'[i := Some(previous)];
        }
      } else if starts'[i].Some? {
        episodes' := episodes'[i := episodes'[i] + [previous - starts'[i].value]];
        starts' := starts'[i := None];
      }
    }
  }

  method CloseEpisodes(starts: seq<Option<real>>, last: real, episodes: seq<seq<real>>)
      returns (episodes': seq<seq<real>>)
    requires |starts| == |episodes|
    ensures |episodes'| == |episodes|
    ensures forall i :: 0 <= i < |episodes| ==> episodes'[i] == Closed(starts[i], last, episodes[i])
  {
    episodes' := episodes;
    for i := 0 to |starts|
      invariant |episodes'| == |episodes|
      invariant forall k :: i <= k < |episodes| ==> episodes'[k] == episodes[k]
      invariant forall k :: 0 <= k < i ==> episodes'[k] == Closed(starts[k], last, episodes[k])
    {
      if starts[i].Some? {
        episodes' := episodes'[i := episodes'[i] + [last - starts[i].value]];
      }
    }
  }

  // ---------------------------------------------------------------- episodes

  /** A list of episodes once a running one has ended at `last`. */
  function Closed(start: Option<real>, last: real, episodes: seq<real>): seq<real> {
    if start.Some? then episodes + [last - start.value] else episodes
  }

  /** When the running episode of depth at least d began, if one runs through gap n-1. */
  function EpisodeStart(rows: seq<Interval>, ts: seq<real>, n: nat, d: int): Option<real>
    requires n < |ts|
  {
    if n == 0 || Count(rows, ts[n - 1]) < d then None
    else if EpisodeStart(rows, ts, n - 1, d).Some? then EpisodeStart(rows, ts, n - 1, d)
    else Some(ts[n - 1])
  }

  /** The lengths of the maximal stretches of depth at least d that ended within the first n gaps. */
  function EndedEpisodes(rows: seq<Interval>, ts: seq<real>, n: nat, d: int): seq<real>
    requires n < |ts|
  {
    if n == 0 then []
    else if Count(rows, ts[n - 1]) >= d then EndedEpisodes(rows, ts, n - 1, d)
    else Closed(EpisodeStart(rows, ts, n - 1, d), ts[n - 1], EndedEpisodes(rows, ts, n - 1, d))
  }

  /** The lengths of all maximal stretches of depth at least d. */
  function EpisodesOf(rows: seq<Interval>, ts: seq<real>, d: int): seq<real>
    requires |ts| > 0
  {
    Closed(EpisodeStart(rows, ts, |ts| - 1, d), ts[|ts| - 1], EndedEpisodes(rows, ts, |ts| - 1, d))
  }

  /** Ended episodes and the running one add up to the time at depth d or more. */
  lemma {:induction false} EpisodesSum(rows: seq<Interval>, ts: seq<real>, n: nat, d: int)
    requires n < |ts|
    ensures Sum(Closed(EpisodeStart(rows, ts, n, d), ts[n], EndedEpisodes(rows, ts, n, d)))
        == TimeAtLeast(rows, ts, n, d)
  {
    if n > 0 {
      EpisodesSum(rows, ts, n - 1, d);
      var start, ended := EpisodeStart(rows, ts, n - 1, d), EndedEpisodes(rows, ts, n - 1, d);
      ClosedSum(start, ts[n - 1], ended);
      ClosedSum(start, ts[n], ended);
      ClosedSum(Some(ts[n - 1]), ts[n], ended);
    }
  }

  lemma ClosedSum(start: Option<real>, last: real, episodes: seq<real>)
    ensures Sum(Closed(start, last, episodes)) == Sum(episodes) + if start.Some? then last - start.value else 0.0
  {
    if start.Some? {
      SumAppend(episodes, last - start.value);
    }
  }

  /** The sweep's episode variables after n gaps. */
  ghost predicate Tracked(rows: seq<Interval>, ts: seq<real>, n: nat, thresholds: seq<int>, starts: seq<Option<real>>,
      episodes: seq<seq<real>>)
    requires n < |ts|
  {
    && |starts| == |episodes| == |thresholds|
    && forall i :: 0 <= i < |thresholds| ==>
         starts[i] == EpisodeStart(rows, ts, n, thresholds[i])
             && episodes[i] == EndedEpisodes(rows, ts, n, thresholds[i])
  }

  /** The variables of the sweep. */
  datatype Trace = Trace(
    depth: int, peak: int, observed: real, timeByDepth: map<int, real>,
    starts: seq<Option<real>>, episodes: seq<seq<real>>)

  /** What the first n gaps have added up to. */
  ghost predicate Measured(rows: seq<Interval>, ts: seq<real>, n: nat, thresholds: seq<int>, t: Trace)
    requires n < |ts|
  {
    && t.observed == ts[n] - ts[0]
    && (forall d :: Get(t.timeByDepth, d, 0.0) == TimeAt(rows, ts, n, d))
    && Tracked(rows, ts, n, thresholds, t.starts, t.episodes)
  }

  /** The depth after the first k timestamps and the largest one so far. */
  ghost predicate Seen(rows: seq<Interval>, ts: seq<real>, k: nat, depth: int, peak: int)
    requires k <= |ts|
  {
    && depth == (if k == 0 then 0 else Count(rows, ts[k - 1]))
    && (forall i :: 0 <= i < k ==> Count(rows, ts[i]) <= peak)
    && peak >= 0 && (peak == 0 || exists i :: 0 <= i < k && Count(rows, ts[i]) == peak)
  }

  lemma NextSeen(rows: seq<Interval>, ts: seq<real>, k: nat, depth: int, peak: int)
    requires k < |ts| && Seen(rows, ts, k, depth, peak)
    ensures var depth' := Count(rows, ts[k]);
            Seen(rows, ts, k + 1, depth', if depth' > peak then depth' else peak)
  {
    if peak != 0 {
      var i :| 0 <= i < k && Count(rows, ts[i]) == peak;
      assert 0 <= i < k + 1;
    }
  }

  lemma SeenAll(rows: seq<Interval>, depth: int, peak: int)
    requires Seen(rows, Times(rows), |Times(rows)|, depth, peak)
    ensures IsPeak(rows, peak)
  {
  }

  function BlankTrace(n: nat): Trace {
    Trace(0, 0, 0.0, map[], seq(n, _ => None), seq(n, _ => []))
  }

  lemma NothingMeasured(rows: seq<Interval>, ts: seq<real>, thresholds: seq<int>, t: Trace)
    requires |ts| > 0 && t == BlankTrace(|thresholds|)
    ensures Traced(rows, ts, 0, thresholds, t)
  {
  }

  /** The summary tells the truth about the set of waiting requests at every moment. */
  ghost predicate Faithful(rows: seq<Interval>, thresholds: seq<int>, s: Summary) {
    var ts := Times(rows);
    && |ts| > 0
    && (forall d :: Get(s.timeByDepth, d, 0.0) == TimeAt(rows, ts, |ts| - 1, d))
    && s.observed == ts[|ts| - 1] - ts[0]
    && |s.episodes| == |thresholds|
    && (forall i :: 0 <= i < |thresholds| ==> s.episodes[i] == EpisodesOf(rows, ts, thresholds[i]))
    && IsPeak(rows, s.peak)
  }

  /**
   Rebuilds one repetition's depth trace. It fails only on an invalid interval or an empty trace: the
   negative-depth and monotonicity errors of the source never fire, and the trace always closes.
   */
  method Replay(rows: seq<Interval>, thresholds: seq<int>) returns (r: Result<Summary, ReplayError>)
    ensures r.Success? <==> AllValid(rows) && |rows| > 0
    ensures r.Failure? ==> r.error == if AllValid(rows) then NotClosed else InvalidInterval
    ensures r.Success? ==> Faithful(rows, thresholds, r.value)
  {
    var built := BuildEvents(rows);
    if built.Failure? {
      return Result.Failure(InvalidInterval);
    }
    if |Times(rows)| == 0 {
      TimesCover(rows);
      return Result.Failure(NotClosed);
    }
    var summary := Summarize(rows, built.value, thresholds);
    r := Result.Success(summary);
  }

  method Summarize(rows: seq<Interval>, events: map<real, int>, thresholds: seq<int>) returns (s: Summary)
    requires AllValid(rows) && |Times(rows)| > 0 && Tallies(events, rows)
    ensures Faithful(rows, thresholds, s)
  {
    var ts := Times(rows);
    TimesCover(rows);
    var swept := Sweep(rows, ts, events, thresholds);
    var t := swept.value;
    SeenAll(rows, t.depth, t.peak);
    var episodes := CloseEpisodes(t.starts, ts[|ts| - 1], t.episodes);
    s := Summary(t.timeByDepth, t.observed, episodes, t.peak);
  }

  /** Books the gap between two timestamps: time at the depth, total time and every threshold's episode. */
  method Elapse(ghost rows: seq<Interval>, ghost ts: seq<real>, ghost n: nat, thresholds: seq<int>, previous: real,
      duration: real, t: Trace)
    returns (t': Trace)
    requires n + 1 < |ts| && previous == ts[n] && duration == ts[n + 1] - ts[n]
    requires Measured(rows, ts, n, thresholds, t) && t.depth == Count(rows, ts[n])
    ensures t'.depth == t.depth && t'.peak == t.peak
    ensures Measured(rows, ts, n + 1, thresholds, t')
  {
    var timeByDepth := t.timeByDepth[t.depth := Get(t.timeByDepth, t.depth, 0.0) + duration];
    var starts, episodes := TrackEpisodes(rows, ts, n, thresholds, t.depth, previous, t.starts, t.episodes);
    forall d ensures Get(timeByDepth, d, 0.0) == TimeAt(rows, ts, n + 1, d) {
      assert Get(t.timeByDepth, d, 0.0) == TimeAt(rows, ts, n, d);
    }
    t' := Trace(t.depth, t.peak, t.observed + duration, timeByDepth, starts, episodes);
  }

  /** Takes one timestamp's change of depth; a negative depth never appears. */
  method TakeEvents(ghost rows: seq<Interval>, ghost ts: seq<real>, ghost k: nat, change: int, t: Trace)
    returns (r: Result<Trace, ReplayError>)
    requires AllValid(rows) && Covers(ts, rows) && k < |ts| && change == Net(rows, ts[k])
    requires Seen(rows, ts, k, t.depth, t.peak)
    ensures r.Success? && r.value == t.(depth := r.value.depth, peak := r.value.peak)
    ensures Seen(rows, ts, k + 1, r.value.depth, r.value.peak)
  {
    CountSteps(rows, ts, k);
    NextSeen(rows, ts, k, t.depth, t.peak);
    var depth := t.depth + change;
    if depth < 0 {
      return Result.Failure(NegativeDepth);
    }
    r := Result.Success(t.(depth := depth, peak := if depth > t.peak then depth else t.peak));
  }

  /** The trace after the first k timestamps. */
  ghost predicate Traced(rows: seq<Interval>, ts: seq<real>, k: nat, thresholds: seq<int>, t: Trace)
    requires k <= |ts| && |ts| > 0
  {
    Seen(rows, ts, k, t.depth, t.peak) && Measured(rows, ts, if k == 0 then 0 else k - 1, thresholds, t)
  }

  /** One turn of the sweep; neither of its errors can fire. */
  method Visit(ghost rows: seq<Interval>, ts: seq<real>, k: nat, change: int, thresholds: seq<int>, t: Trace)
    returns (r: Result<Trace, ReplayError>)
    requires AllValid(rows) && Covers(ts, rows) && k < |ts| && change == Net(rows, ts[k])
    requires Traced(rows, ts, k, thresholds, t)
    ensures r.Success? && Traced(rows, ts, k + 1, thresholds, r.value)
  {
    var t' := t;
    if k > 0 {
      var duration := ts[k] - ts[k - 1];
      if duration < 0.0 {
        return Result.Failure(NotMonotonic);
      }
      t' := Elapse(rows, ts, k - 1, thresholds, ts[k - 1], duration, t);
    }
    r := TakeEvents(rows, ts, k, change, t');
  }

  lemma EventAt(rows: seq<Interval>, ts: seq<real>, events: map<real, int>, k: nat)
    requires Tallies(events, rows) && ts == Times(rows) && k < |ts|
    ensures ts[k] in events && events[ts[k]] == Net(rows, ts[k])
  {
    assert Get(events, ts[k], 0) == Net(rows, ts[k]);
  }

  method Sweep(ghost rows: seq<Interval>, ts: seq<real>, events: map<real, int>, thresholds: seq<int>)
    returns (r: Result<Trace, ReplayError>)
    requires AllValid(rows) && Covers(ts, rows) && |ts| > 0
    requires Tallies(events, rows) && ts == Times(rows)
    ensures r.Success? && r.value.depth == 0 && Traced(rows, ts, |ts|, thresholds, r.value)
  {
    var t := BlankTrace(|thresholds|);
    NothingMeasured(rows, ts, thresholds, t);
    for k := 0 to |ts|
      invariant Traced(rows, ts, k, thresholds, t)
    {
      EventAt(rows, ts, events, k);
      var visited := Visit(rows, ts, k, events[ts[k]], thresholds, t);
      if visited.Failure? {
        return visited;
      }
      t := visited.value;
    }
    NothingWaitsAtEnd(rows, ts);
    if t.depth != 0 {
      return Result.Failure(NotClosed);
    }
    r := Result.Success(t);
  }
}
