/** The episodes of the probe's trace are exactly the maximal stretches of spans with enough requests waiting. */
module SpanEpisodes {
  import opened EpisodeStretches
  import opened TraceStatistics

  /** Each span begins where the one before it ends. */
  ghost predicate Adjoining(spans: seq<Span>) {
    && (forall k :: 0 <= k < |spans| ==> spans[k].start < spans[k].end)
    && (forall k :: 0 < k < |spans| ==> FollowsOn(spans, k))
  }

  ghost predicate FollowsOn(spans: seq<Span>, k: nat)
    requires 0 < k < |spans|
  {
    spans[k - 1].end == spans[k].start
  }

  lemma {:induction false} ContiguousAdjoin(spans: seq<Span>, from: real, to: real)
    requires Contiguous(spans, from, to)
    ensures Adjoining(spans)
  {
    if |spans| > 0 {
      var n := |spans| - 1;
      ContiguousAdjoin(spans[..n], from, spans[n].start);
      forall k | 0 < k < |spans| ensures FollowsOn(spans, k) {
        if k < n {
          assert FollowsOn(spans[..n], k);
        }
      }
    }
  }

  /** Depth at least d throughout, and not before. */
  ghost predicate DeepSince(spans: seq<Span>, d: int, from: nat, to: nat)
    requires from <= to <= |spans|
  {
    && (forall k :: from <= k < to ==> spans[k].depth >= d)
    && (from == 0 || spans[from - 1].depth < d)
  }

  ghost predicate MaximalSpans(spans: seq<Span>, d: int, s: Stretch) {
    && s.from < s.to <= |spans| && DeepSince(spans, d, s.from, s.to)
    && (s.to == |spans| || spans[s.to].depth < d)
  }

  function Duration(spans: seq<Span>, s: Stretch): real
    requires s.from < s.to <= |spans|
  {
    spans[s.to - 1].end - spans[s.from].start
  }

  /** Stretch m has ended before span n, and is the one whose length is listed. */
  ghost predicate EndedBefore(spans: seq<Span>, d: int, n: nat, ended: seq<Stretch>, lengths: seq<real>, m: nat)
    requires n <= |spans| && m < |ended| == |lengths|
  {
    ended[m].to < n && MaximalSpans(spans, d, ended[m]) && lengths[m] == Duration(spans, ended[m])
  }

  /** The stretches that ended among the first n spans, and where the running one began, n if none runs. */
  ghost predicate ChartedSpans(
    spans: seq<Span>, d: int, n: nat, ended: seq<Stretch>, run: nat, lengths: seq<real>, running: real)
    requires n <= |spans|
  {
    && |ended| == |lengths|
    && (forall m :: 0 <= m < |ended| ==> EndedBefore(spans, d, n, ended, lengths, m) && ended[m].to < run)
    && (forall m, m' :: 0 <= m < m' < |ended| ==> ended[m].to < ended[m'].from)
    && run <= n && DeepSince(spans, d, run, n)
    && running == (if run < n then Duration(spans, Stretch(run, n)) else 0.0)
    && (forall k: nat :: k < run && spans[k].depth >= d ==> Within(ended, k))
  }

  lemma {:induction false} ChartSpans(spans: seq<Span>, d: int, n: nat) returns (ended: seq<Stretch>, run: nat)
    requires Adjoining(spans) && n <= |spans|
    ensures ChartedSpans(spans, d, n, ended, run, Ended(spans[..n], d), Running(spans[..n], d))
    decreases n
  {
    if n == 0 {
      ended, run := [], 0;
    } else {
      var before := spans[..n - 1];
      assert spans[..n][..n - 1] == before && spans[..n][n - 1] == spans[n - 1];
      ended, run := ChartSpans(spans, d, n - 1);
      if spans[n - 1].depth >= d {
        ExtendRun(spans, d, n, ended, run, Ended(before, d), Running(before, d));
      } else if run < n - 1 {
        CloseRun(spans, d, n, ended, run, Ended(before, d), Running(before, d));
        ended, run := ended + [Stretch(run, n - 1)], n;
      } else {
        SkipShallow(spans, d, n, ended, Ended(before, d), Running(before, d));
        run := n;
      }
    }
  }

  lemma ExtendRun(
    spans: seq<Span>, d: int, n: nat, ended: seq<Stretch>, run: nat, lengths: seq<real>, running: real)
    requires Adjoining(spans) && 0 < n <= |spans| && spans[n - 1].depth >= d
    requires ChartedSpans(spans, d, n - 1, ended, run, lengths, running)
    ensures ChartedSpans(spans, d, n, ended, run, lengths, running + spans[n - 1].end - spans[n - 1].start)
  {
    if n > 1 {
      assert FollowsOn(spans, n - 1);
    }
    StillEnded(spans, d, n - 1, n, ended, lengths);
  }

  lemma StillEnded(spans: seq<Span>, d: int, n': nat, n: nat, ended: seq<Stretch>, lengths: seq<real>)
    requires n' <= n <= |spans| && |ended| == |lengths|
    requires forall m :: 0 <= m < |ended| ==> EndedBefore(spans, d, n', ended, lengths, m)
    ensures forall m :: 0 <= m < |ended| ==> EndedBefore(spans, d, n, ended, lengths, m)
  {
    forall m | 0 <= m < |ended| ensures EndedBefore(spans, d, n, ended, lengths, m) {
      assert EndedBefore(spans, d, n', ended, lengths, m);
    }
  }

  lemma CloseRun(
    spans: seq<Span>, d: int, n: nat, ended: seq<Stretch>, run: nat, lengths: seq<real>, running: real)
    requires Adjoining(spans) && 0 < n <= |spans| && spans[n - 1].depth < d && run < n - 1
    requires ChartedSpans(spans, d, n - 1, ended, run, lengths, running)
    ensures ChartedSpans(spans, d, n, ended + [Stretch(run, n - 1)], n, Closing(lengths, running), 0.0)
  {
    RunIsPositive(spans, run, n - 1);
    var ended', lengths' := ended + [Stretch(run, n - 1)], lengths + [running];
    forall m | 0 <= m < |ended'| ensures EndedBefore(spans, d, n, ended', lengths', m) {
      if m < |ended| {
        assert EndedBefore(spans, d, n - 1, ended, lengths, m);
      }
    }
    WithinMore(ended, Stretch(run, n - 1));
  }

  lemma SkipShallow(spans: seq<Span>, d: int, n: nat, ended: seq<Stretch>, lengths: seq<real>, running: real)
    requires 0 < n <= |spans| && spans[n - 1].depth < d
    requires ChartedSpans(spans, d, n - 1, ended, n - 1, lengths, running)
    ensures ChartedSpans(spans, d, n, ended, n, Closing(lengths, running), 0.0)
  {
    StillEnded(spans, d, n - 1, n, ended, lengths);
  }

  lemma {:induction false} RunIsPositive(spans: seq<Span>, first: nat, n: nat)
    requires Adjoining(spans) && first < n <= |spans|
    ensures Duration(spans, Stretch(first, n)) > 0.0
    decreases n
  {
    if first < n - 1 {
      RunIsPositive(spans, first, n - 1);
      assert FollowsOn(spans, n - 1);
    }
  }

  /** Episode m is the length of stretch m, which is maximal. */
  ghost predicate EpisodeIs(spans: seq<Span>, d: int, ss: seq<Stretch>, m: nat)
    requires m < |ss| == |EpisodesIn(spans, d)|
  {
    MaximalSpans(spans, d, ss[m]) && EpisodesIn(spans, d)[m] == Duration(spans, ss[m])
  }

  /** The episodes of a trace without gaps are its maximal stretches, in order; every deep span lies in one. */
  lemma EpisodesAreMaximalSpans(spans: seq<Span>, from: real, to: real, d: int) returns (ss: seq<Stretch>)
    requires Contiguous(spans, from, to)
    ensures |ss| == |EpisodesIn(spans, d)| && forall m :: 0 <= m < |ss| ==> EpisodeIs(spans, d, ss, m)
    ensures forall m, m' :: 0 <= m < m' < |ss| ==> ss[m].to < ss[m'].from
    ensures forall k: nat :: k < |spans| && spans[k].depth >= d ==> Within(ss, k)
  {
    ContiguousAdjoin(spans, from, to);
    var n := |spans|;
    assert spans[..n] == spans;
    var ended, run := ChartSpans(spans, d, n);
    ss := ended;
    if run < n {
      RunIsPositive(spans, run, n);
      ss := ended + [Stretch(run, n)];
      WithinMore(ended, Stretch(run, n));
    }
    forall m | 0 <= m < |ss| ensures EpisodeIs(spans, d, ss, m) {
      if m < |ended| {
        assert EndedBefore(spans, d, n, ended, Ended(spans, d), m);
      }
    }
  }
}
