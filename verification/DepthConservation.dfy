/** Conservation laws of the depth replay: what its times add up to. */
module DepthConservation {
  import opened Arithmetic
  import opened DepthReplay

  const BY_DEPTH: int -> real := d => d as real
  const EVENLY: int -> real := d => 1.0

  /** Weighted depth times duration over the first n gaps, given the depth after each timestamp. */
  function Area(w: int -> real, depths: seq<int>, ts: seq<real>, n: nat): real
    requires n < |ts| && n <= |depths|
  {
    if n == 0 then 0.0 else Area(w, depths, ts, n - 1) + Product(w(depths[n - 1]), ts[n] - ts[n - 1])
  }

  /** The number of requests waiting at each timestamp. */
  function Depths(rows: seq<Interval>, ts: seq<real>): seq<int> {
    seq(|ts|, k requires 0 <= k < |ts| => Count(rows, ts[k]))
  }

  function RowDepths(r: Interval, ts: seq<real>): seq<int> {
    seq(|ts|, k requires 0 <= k < |ts| => Waits(r, ts[k]))
  }

  function TotalWait(rows: seq<Interval>): real {
    if |rows| == 0 then 0.0
    else TotalWait(rows[..|rows| - 1]) + End(rows[|rows| - 1]) - rows[|rows| - 1].enqueue
  }

  /** One record contributes exactly the part of its wait that has elapsed by ts[n]. */
  lemma {:induction false} RowElapses(r: Interval, ts: seq<real>, n: nat, i: nat, j: nat)
    requires Valid(r) && Strict(ts) && n < |ts|
    requires i < |ts| && j < |ts| && ts[i] == r.enqueue && ts[j] == r.dispatch.value
    ensures Area(BY_DEPTH, RowDepths(r, ts), ts, n)
        == if n <= i then 0.0 else if n >= j then ts[j] - ts[i] else ts[n] - ts[i]
  {
    if n > 0 {
      RowElapses(r, ts, n - 1, i, j);
      var gap := ts[n] - ts[n - 1];
      assert RowDepths(r, ts)[n - 1] == if i <= n - 1 < j then 1 else 0;
      assert Product(0.0, gap) == 0.0 && Product(1.0, gap) == gap;
    }
  }

  lemma RowWaits(r: Interval, ts: seq<real>)
    requires Valid(r) && Strict(ts) && r.enqueue in ts && End(r) in ts
    ensures Area(BY_DEPTH, RowDepths(r, ts), ts, |ts| - 1) == End(r) - r.enqueue
  {
    var i :| 0 <= i < |ts| && ts[i] == r.enqueue;
    var j :| 0 <= j < |ts| && ts[j] == End(r);
    RowElapses(r, ts, |ts| - 1, i, j);
  }

  lemma {:induction false} AreaAdds(a: seq<int>, b: seq<int>, c: seq<int>, ts: seq<real>, n: nat)
    requires n < |ts| == |a| == |b| == |c|
    requires forall k :: 0 <= k < n ==> c[k] == a[k] + b[k]
    ensures Area(BY_DEPTH, c, ts, n) == Area(BY_DEPTH, a, ts, n) + Area(BY_DEPTH, b, ts, n)
  {
    if n > 0 {
      AreaAdds(a, b, c, ts, n - 1);
      Distribute(a[n - 1] as real, b[n - 1] as real, ts[n] - ts[n - 1]);
    }
  }

  lemma {:induction false} NoArea(depths: seq<int>, ts: seq<real>, n: nat)
    requires n < |ts| && n <= |depths| && forall k :: 0 <= k < n ==> depths[k] == 0
    ensures Area(BY_DEPTH, depths, ts, n) == 0.0
  {
    if n > 0 {
      NoArea(depths, ts, n - 1);
    }
  }

  /** Depth integrated over the whole trace is the total time requests waited. */
  lemma {:induction false} AreaIsTotalWait(rows: seq<Interval>, ts: seq<real>)
    requires AllValid(rows) && Covers(ts, rows) && |ts| > 0
    ensures Area(BY_DEPTH, Depths(rows, ts), ts, |ts| - 1) == TotalWait(rows)
    decreases |rows|
  {
    if |rows| == 0 {
      NoArea(Depths(rows, ts), ts, |ts| - 1);
    } else {
      var before, r := rows[..|rows| - 1], rows[|rows| - 1];
      CoversPrefix(ts, rows);
      AreaIsTotalWait(before, ts);
      AreaAdds(Depths(before, ts), RowDepths(r, ts), Depths(rows, ts), ts, |ts| - 1);
      RowWaits(r, ts);
    }
  }

  // ---------------------------------------------------------------- sums over depths

  /** The times spent at the depths lo..hi, each weighted by w. */
  function Weigh(w: int -> real, time: int -> real, lo: int, hi: int): real
    decreases hi - lo
  {
    if lo > hi then 0.0 else Weigh(w, time, lo, hi - 1) + Product(w(hi), time(hi))
  }

  /** Spending `gap` more at depth c adds its weighted time when c is in range. */
  lemma {:induction false} WeighSteps(w: int -> real, time: int -> real, time': int -> real, c: int, gap: real, lo: int,
      hi: int)
    requires forall d :: time'(d) == time(d) + if d == c then gap else 0.0
    ensures Weigh(w, time', lo, hi) == Weigh(w, time, lo, hi) + if lo <= c <= hi then Product(w(c), gap) else 0.0
    decreases hi - lo
  {
    if lo <= hi {
      WeighSteps(w, time, time', c, gap, lo, hi - 1);
      Distribute(time(hi), gap, w(hi));
    }
  }

  lemma {:induction false} WeighNothing(w: int -> real, time: int -> real, lo: int, hi: int)
    requires forall d :: time(d) == 0.0
    ensures Weigh(w, time, lo, hi) == 0.0
    decreases hi - lo
  {
    if lo <= hi {
      WeighNothing(w, time, lo, hi - 1);
    }
  }

  /** The depth only matters through its weight, so gaps can be grouped by depth. */
  lemma {:induction false} GapsGroupByDepth(w: int -> real, rows: seq<Interval>, ts: seq<real>, n: nat, hi: int,
      time: int -> real)
    requires n < |ts| && forall d :: time(d) == TimeAt(rows, ts, n, d)
    requires forall k :: 0 <= k < n ==> Count(rows, ts[k]) <= hi
    ensures Weigh(w, time, 0, hi) == Area(w, Depths(rows, ts), ts, n)
    decreases n
  {
    if n == 0 {
      WeighNothing(w, time, 0, hi);
    } else {
      var before := d => TimeAt(rows, ts, n - 1, d);
      GapsGroupByDepth(w, rows, ts, n - 1, hi, before);
      WeighSteps(w, before, time, Count(rows, ts[n - 1]), ts[n] - ts[n - 1], 0, hi);
    }
  }

  lemma {:induction false} DepthsSumToTail(rows: seq<Interval>, ts: seq<real>, n: nat, lo: int, hi: int,
      time: int -> real)
    requires n < |ts| && forall d :: time(d) == TimeAt(rows, ts, n, d)
    requires forall k :: 0 <= k < n ==> Count(rows, ts[k]) <= hi
    ensures Weigh(EVENLY, time, lo, hi) == TimeAtLeast(rows, ts, n, lo)
    decreases n
  {
    if n == 0 {
      WeighNothing(EVENLY, time, lo, hi);
    } else {
      var before := d => TimeAt(rows, ts, n - 1, d);
      DepthsSumToTail(rows, ts, n - 1, lo, hi, before);
      WeighSteps(EVENLY, before, time, Count(rows, ts[n - 1]), ts[n] - ts[n - 1], lo, hi);
    }
  }

  lemma {:induction false} AlwaysAtLeastZero(rows: seq<Interval>, ts: seq<real>, n: nat)
    requires n < |ts|
    ensures TimeAtLeast(rows, ts, n, 0) == ts[n] - ts[0]
  {
    if n > 0 {
      AlwaysAtLeastZero(rows, ts, n - 1);
    }
  }

  lemma WaitIsConserved(rows: seq<Interval>, ts: seq<real>, peak: int, time: int -> real)
    requires AllValid(rows) && Covers(ts, rows) && |ts| > 0 && forall d :: time(d) == TimeAt(rows, ts, |ts| - 1, d)
    requires forall k :: 0 <= k < |ts| ==> Count(rows, ts[k]) <= peak
    ensures Weigh(BY_DEPTH, time, 0, peak) == TotalWait(rows)
  {
    GapsGroupByDepth(BY_DEPTH, rows, ts, |ts| - 1, peak, time);
    AreaIsTotalWait(rows, ts);
  }

  lemma ThresholdIsConserved(rows: seq<Interval>, ts: seq<real>, peak: int, time: int -> real, d: int)
    requires |ts| > 0 && forall x :: time(x) == TimeAt(rows, ts, |ts| - 1, x)
    requires forall k :: 0 <= k < |ts| ==> Count(rows, ts[k]) <= peak
    ensures Sum(EpisodesOf(rows, ts, d)) == Weigh(EVENLY, time, d, peak)
    ensures Weigh(EVENLY, time, 0, peak) == ts[|ts| - 1] - ts[0]
  {
    EpisodesSum(rows, ts, |ts| - 1, d);
    DepthsSumToTail(rows, ts, |ts| - 1, d, peak, time);
    DepthsSumToTail(rows, ts, |ts| - 1, 0, peak, time);
    AlwaysAtLeastZero(rows, ts, |ts| - 1);
  }

  /**
   A replay conserves time: depth times duration adds up to the total waiting time, the depths' times to the
   observed time, and every threshold's episodes to the times of the depths from the threshold up.
  */
  lemma ReplayConserves(rows: seq<Interval>, thresholds: seq<int>, s: Summary, time: int -> real)
    requires AllValid(rows) && Faithful(rows, thresholds, s)
    requires forall d :: time(d) == Get(s.timeByDepth, d, 0.0)
    ensures Weigh(BY_DEPTH, time, 0, s.peak) == TotalWait(rows)
    ensures Weigh(EVENLY, time, 0, s.peak) == s.observed
    ensures forall i :: 0 <= i < |thresholds| ==> Sum(s.episodes[i]) == Weigh(EVENLY, time, thresholds[i], s.peak)
  {
    var ts := Times(rows);
    TimesCover(rows);
    assert forall k :: 0 <= k < |ts| ==> ts[k] in ts;
    WaitIsConserved(rows, ts, s.peak, time);
    ThresholdIsConserved(rows, ts, s.peak, time, 0);
    forall i | 0 <= i < |thresholds| ensures Sum(s.episodes[i]) == Weigh(EVENLY, time, thresholds[i], s.peak) {
      ThresholdIsConserved(rows, ts, s.peak, time, thresholds[i]);
    }
  }
}
