/** The episodes of the depth replay are exactly the maximal stretches of time with enough requests waiting. */
module EpisodeStretches {
  import opened DepthReplay
  import opened Wrappers

  /** The gaps from..to-1, which last from ts[from] to ts[to]. */
  datatype Stretch = Stretch(from: nat, to: nat)

  /** Depth at least d throughout, and at neither neighbouring gap among the first n. */
  ghost predicate Maximal(rows: seq<Interval>, ts: seq<real>, n: nat, d: int, s: Stretch)
    requires n < |ts|
  {
    && s.from < s.to <= n
    && (forall k :: s.from <= k < s.to ==> Count(rows, ts[k]) >= d)
    && (s.from == 0 || Count(rows, ts[s.from - 1]) < d)
    && (s.to == n || Count(rows, ts[s.to]) < d)
  }

  ghost predicate Within(ss: seq<Stretch>, k: nat) {
    exists m :: 0 <= m < |ss| && ss[m].from <= k < ss[m].to
  }

  function Length(ts: seq<real>, s: Stretch): real
    requires s.from < |ts| && s.to < |ts|
  {
    ts[s.to] - ts[s.from]
  }

  /** A stretch of depth at least d that nothing before it extends. */
  ghost predicate Deep(rows: seq<Interval>, ts: seq<real>, d: int, s: Stretch) {
    && s.from < s.to < |ts|
    && (forall k :: s.from <= k < s.to ==> Count(rows, ts[k]) >= d)
    && (s.from == 0 || Count(rows, ts[s.from - 1]) < d)
  }

  /** The ended stretches, in order, and those of their lengths the sweep has listed. */
  ghost predicate Charted(rows: seq<Interval>, ts: seq<real>, n: nat, d: int, ended: seq<Stretch>)
    requires n < |ts|
  {
    && |ended| == |EndedEpisodes(rows, ts, n, d)|
    && (forall m :: 0 <= m < |ended| ==> EndedAt(rows, ts, n, d, ended, m))
    && (forall m, m' :: 0 <= m < m' < |ended| ==> ended[m].to < ended[m'].from)
  }

  ghost predicate EndedAt(rows: seq<Interval>, ts: seq<real>, n: nat, d: int, ended: seq<Stretch>, m: nat)
    requires n < |ts| && m < |ended| == |EndedEpisodes(rows, ts, n, d)|
  {
    && ended[m].to < n && Deep(rows, ts, d, ended[m]) && Count(rows, ts[ended[m].to]) < d
    && EndedEpisodes(rows, ts, n, d)[m] == Length(ts, ended[m])
  }

  /** The running stretch, if any, and what is covered so far. */
  ghost predicate Runs(rows: seq<Interval>, ts: seq<real>, n: nat, d: int, ended: seq<Stretch>, run: Option<nat>)
    requires n < |ts|
  {
    && EpisodeStart(rows, ts, n, d) == (if run.Some? && run.value < n then Some(ts[run.value]) else None)
    && (run.None? ==> n == 0 || Count(rows, ts[n - 1]) < d)
    && (run.Some? ==>
          run.value < n && Deep(rows, ts, d, Stretch(run.value, n))
          && forall m :: 0 <= m < |ended| ==> ended[m].to < run.value)
    && (forall k: nat :: k < n && Count(rows, ts[k]) >= d ==> Within(ended, k) || (run.Some? && run.value <= k))
  }

  lemma {:induction false} Chart(rows: seq<Interval>, ts: seq<real>, n: nat, d: int)
      returns (ended: seq<Stretch>, run: Option<nat>)
    requires n < |ts|
    ensures Charted(rows, ts, n, d, ended) && Runs(rows, ts, n, d, ended, run)
  {
    if n == 0 {
      ended, run := [], None;
    } else {
      ended, run := Chart(rows, ts, n - 1, d);
      if Count(rows, ts[n - 1]) >= d {
        StaysDeep(rows, ts, n, d, ended, run);
        run := if run.Some? then run else Some(n - 1);
      } else if run.Some? {
        Ends(rows, ts, n, d, ended, run.value);
        ended, run := ended + [Stretch(run.value, n - 1)], None;
      } else {
        StaysCharted(rows, ts, n, d, ended);
      }
    }
  }

  lemma StaysCharted(rows: seq<Interval>, ts: seq<real>, n: nat, d: int, ended: seq<Stretch>)
    requires 0 < n < |ts| && Charted(rows, ts, n - 1, d, ended)
    requires EndedEpisodes(rows, ts, n, d) == EndedEpisodes(rows, ts, n - 1, d)
    ensures Charted(rows, ts, n, d, ended)
  {
    forall m | 0 <= m < |ended| ensures EndedAt(rows, ts, n, d, ended, m) {
      assert EndedAt(rows, ts, n - 1, d, ended, m);
    }
  }

  lemma StaysDeep(rows: seq<Interval>, ts: seq<real>, n: nat, d: int, ended: seq<Stretch>, run: Option<nat>)
    requires 0 < n < |ts| && Charted(rows, ts, n - 1, d, ended) && Runs(rows, ts, n - 1, d, ended, run)
    requires Count(rows, ts[n - 1]) >= d
    ensures Charted(rows, ts, n, d, ended)
    ensures Runs(rows, ts, n, d, ended, if run.Some? then run else Some(n - 1))
  {
    StaysCharted(rows, ts, n, d, ended);
    forall m | 0 <= m < |ended| ensures ended[m].to < n - 1 {
      assert EndedAt(rows, ts, n - 1, d, ended, m);
    }
  }

  lemma Ends(rows: seq<Interval>, ts: seq<real>, n: nat, d: int, ended: seq<Stretch>, start: nat)
    requires 0 < n < |ts| && Charted(rows, ts, n - 1, d, ended) && Runs(rows, ts, n - 1, d, ended, Some(start))
    requires Count(rows, ts[n - 1]) < d
    ensures Charted(rows, ts, n, d, ended + [Stretch(start, n - 1)])
    ensures Runs(rows, ts, n, d, ended + [Stretch(start, n - 1)], None)
  {
    var s := Stretch(start, n - 1);
    var longer := ended + [s];
    assert EndedEpisodes(rows, ts, n, d) == EndedEpisodes(rows, ts, n - 1, d) + [Length(ts, s)];
    forall m | 0 <= m < |longer| ensures EndedAt(rows, ts, n, d, longer, m) {
      if m < |ended| {
        assert EndedAt(rows, ts, n - 1, d, ended, m);
      }
    }
    WithinMore(ended, s);
  }

  lemma WithinMore(ss: seq<Stretch>, s: Stretch)
    ensures forall k: nat :: Within(ss, k) || s.from <= k < s.to ==> Within(ss + [s], k)
  {
    forall k: nat | Within(ss, k) || s.from <= k < s.to ensures Within(ss + [s], k) {
      var all := ss + [s];
      if Within(ss, k) {
        var m :| 0 <= m < |ss| && ss[m].from <= k < ss[m].to;
        assert all[m] == ss[m];
      } else {
        assert all[|ss|] == s;
      }
    }
  }

  ghost function AllStretches(n: nat, ended: seq<Stretch>, run: Option<nat>): seq<Stretch> {
    if run.Some? then ended + [Stretch(run.value, n)] else ended
  }

  /** Episode m is the length of stretch m, which is maximal. */
  ghost predicate EpisodeAt(rows: seq<Interval>, ts: seq<real>, d: int, ss: seq<Stretch>, m: nat)
    requires |ts| > 0 && m < |ss| == |EpisodesOf(rows, ts, d)|
  {
    Maximal(rows, ts, |ts| - 1, d, ss[m]) && EpisodesOf(rows, ts, d)[m] == Length(ts, ss[m])
  }

  lemma EveryEpisode(rows: seq<Interval>, ts: seq<real>, d: int, ended: seq<Stretch>, run: Option<nat>)
    requires |ts| > 0 && Charted(rows, ts, |ts| - 1, d, ended) && Runs(rows, ts, |ts| - 1, d, ended, run)
    ensures var ss := AllStretches(|ts| - 1, ended, run);
            |ss| == |EpisodesOf(rows, ts, d)| && forall m :: 0 <= m < |ss| ==> EpisodeAt(rows, ts, d, ss, m)
  {
    var n := |ts| - 1;
    var ss := AllStretches(n, ended, run);
    forall m | 0 <= m < |ss| ensures EpisodeAt(rows, ts, d, ss, m) {
      if m < |ended| {
        assert EndedAt(rows, ts, n, d, ended, m);
      }
    }
  }

  lemma EveryGap(rows: seq<Interval>, ts: seq<real>, n: nat, d: int, ended: seq<Stretch>, run: Option<nat>)
    requires n < |ts| && Runs(rows, ts, n, d, ended, run)
    ensures forall k: nat :: k < n && Count(rows, ts[k]) >= d ==> Within(AllStretches(n, ended, run), k)
  {
    if run.Some? {
      WithinMore(ended, Stretch(run.value, n));
    }
  }

  /** The listed episodes are the maximal stretches: each is one, in order, and every gap deep enough lies in one. */
  lemma EpisodesAreMaximalStretches(rows: seq<Interval>, ts: seq<real>, d: int) returns (ss: seq<Stretch>)
    requires |ts| > 0
    ensures |ss| == |EpisodesOf(rows, ts, d)| && forall m :: 0 <= m < |ss| ==> EpisodeAt(rows, ts, d, ss, m)
    ensures forall m, m' :: 0 <= m < m' < |ss| ==> ss[m].to < ss[m'].from
    ensures forall k: nat :: k < |ts| - 1 && Count(rows, ts[k]) >= d ==> Within(ss, k)
  {
    var ended, run := Chart(rows, ts, |ts| - 1, d);
    ss := AllStretches(|ts| - 1, ended, run);
    EveryGap(rows, ts, |ts| - 1, d, ended, run);
    EveryEpisode(rows, ts, d, ended, run);
  }
}
