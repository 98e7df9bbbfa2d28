/**
 The probe against the replay: sweeping the simulated requests' own enqueue and dispatch times gives back exactly
 the time by depth that the probe accumulated while it ran.
*/
module ProbeReplay {
  import opened LowLoadProbe
  import opened Models
  import opened TraceStatistics
  import R = DepthReplay

  /** Between two event times the waiting set does not change. */
  lemma {:induction false} CountBetween(rows: seq<R.Interval>, ts: seq<real>, k: nat, t: real)
    requires R.AllValid(rows) && R.Covers(ts, rows) && k + 1 < |ts| && ts[k] <= t < ts[k + 1]
    ensures R.Count(rows, t) == R.Count(rows, ts[k])
    decreases |rows|
  {
    if |rows| > 0 {
      var r := rows[|rows| - 1];
      R.CoversPrefix(ts, rows);
      CountBetween(rows[..|rows| - 1], ts, k, t);
      var i :| 0 <= i < |ts| && ts[i] == r.enqueue;
      var j :| 0 <= j < |ts| && ts[j] == R.End(r);
    }
  }

  /** The last event time at or before x. */
  function Locate(ts: seq<real>, x: real): (k: nat)
    requires |ts| > 0 && R.Strict(ts) && ts[0] <= x
    ensures k < |ts| && ts[k] <= x && (k + 1 < |ts| ==> x < ts[k + 1])
  {
    if ts[|ts| - 1] <= x then |ts| - 1 else Locate(ts[..|ts| - 1], x)
  }

  /** The replay's time at depth d up to the moment x. */
  function TimeUntil(rows: seq<R.Interval>, ts: seq<real>, d: int, x: real): real
    requires |ts| > 0 && R.Strict(ts) && ts[0] <= x
  {
    var k := Locate(ts, x);
    R.TimeAt(rows, ts, k, d) + if R.Count(rows, ts[k]) == d then x - ts[k] else 0.0
  }

  lemma {:induction false} SameDepthAccrues(rows: seq<R.Interval>, ts: seq<real>, d: int, k: nat, m: nat, depth: int)
    requires k <= m < |ts| && forall j :: k <= j < m ==> R.Count(rows, ts[j]) == depth
    ensures R.TimeAt(rows, ts, m, d) == R.TimeAt(rows, ts, k, d) + if depth == d then ts[m] - ts[k] else 0.0
    decreases m
  {
    if k < m {
      SameDepthAccrues(rows, ts, d, k, m - 1, depth);
    }
  }

  /** A stretch of constant depth counts in full, or not at all, however many events fall into it. */
  lemma StretchAccrues(rows: seq<R.Interval>, ts: seq<real>, d: int, x: real, y: real, depth: int)
    requires R.AllValid(rows) && R.Covers(ts, rows) && |ts| > 0 && ts[0] <= x < y <= ts[|ts| - 1]
    requires forall t :: x <= t < y ==> R.Count(rows, t) == depth
    ensures TimeUntil(rows, ts, d, y) == TimeUntil(rows, ts, d, x) + if depth == d then y - x else 0.0
  {
    var k, m := Locate(ts, x), Locate(ts, y);
    assert k + 1 < |ts|;
    CountBetween(rows, ts, k, x);
    assert R.Count(rows, x) == depth;
    forall j | k <= j < m ensures R.Count(rows, ts[j]) == depth {
      if j > k {
        assert x < ts[k + 1] <= ts[j] < ts[m] <= y;
      }
    }
    SameDepthAccrues(rows, ts, d, k, m, depth);
    if m > k && ts[m] < y {
      assert x < ts[k + 1] <= ts[m];
      assert R.Count(rows, ts[m]) == depth;
    }
  }

  ghost predicate TracesCount(rows: seq<R.Interval>, spans: seq<Span>) {
    forall k: nat, t: real :: k < |spans| && spans[k].start <= t < spans[k].end ==> R.Count(rows, t) == spans[k].depth
  }

  lemma {:induction false} SpansAccrue(rows: seq<R.Interval>, ts: seq<real>, d: int, spans: seq<Span>, to: real)
    requires R.AllValid(rows) && R.Covers(ts, rows) && |ts| > 0 && TracesCount(rows, spans)
    requires Contiguous(spans, ts[0], to) && to <= ts[|ts| - 1]
    ensures ts[0] <= to && Spent(AtDepth(d), spans) == TimeUntil(rows, ts, d, to)
    decreases |spans|
  {
    if |spans| > 0 {
      var before, s := spans[..|spans| - 1], spans[|spans| - 1];
      forall k: nat, t: real | k < |before| && before[k].start <= t < before[k].end
        ensures R.Count(rows, t) == before[k].depth
      {
        assert before[k] == spans[k];
      }
      SpansAccrue(rows, ts, d, before, s.start);
      StretchAccrues(rows, ts, d, s.start, s.end, s.depth);
    }
  }

  /** The sweep of the simulated requests starts at the first arrival and ends at the last dispatch. */
  lemma SweepEnds(requests: seq<Envelope>, times: seq<real>, spans: seq<Span>)
    requires Faithful(requests, times, spans)
    ensures var ts := R.Times(Rows(requests, times));
            |ts| > 0 && ts[0] == requests[0].arrival && ts[|ts| - 1] == times[|times| - 1]
  {
    var rows := Rows(requests, times);
    var ts := R.Times(rows);
    R.TimesCover(rows);
    assert rows[0].enqueue in ts && R.End(rows[|rows| - 1]) in ts;
    forall t | t in ts ensures requests[0].arrival <= t <= times[|times| - 1] {
      var i := EventOf(rows, t);
    }
    assert ts[0] in ts && ts[|ts| - 1] in ts;
  }

  lemma {:induction false} EventOf(rows: seq<R.Interval>, t: real) returns (i: nat)
    requires t in R.Times(rows)
    ensures i < |rows| && (rows[i].enqueue == t || R.End(rows[i]) == t)
  {
    var n := |rows| - 1;
    if t in R.Times(rows[..n]) {
      i := EventOf(rows[..n], t);
    } else {
      i := n;
    }
  }

  /** The probe's time at every depth is the replay's time at that depth for the requests it simulated. */
  lemma ProbeAgreesWithReplay(requests: seq<Envelope>, times: seq<real>, totals: Totals, d: int)
    requires totals.Valid() && Faithful(requests, times, totals.spans)
    ensures var rows := Rows(requests, times); var ts := R.Times(rows);
            |ts| > 0 && R.Get(totals.depthTime, d, 0.0) == R.TimeAt(rows, ts, |ts| - 1, d)
  {
    var rows := Rows(requests, times);
    var ts := R.Times(rows);
    SweepEnds(requests, times, totals.spans);
    R.TimesCover(rows);
    SpansAccrue(rows, ts, d, totals.spans, ts[|ts| - 1]);
  }
}
