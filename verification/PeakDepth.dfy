/**
 The correctness report's peak queue depth: signed events sorted by (time, change), departures first, and the
 largest running sum. It is the peak of the set of waiting requests, hence the peak the depth replay finds.
*/
module PeakDepth {
  import opened DepthReplay

  datatype Event = Event(time: real, change: int)

  predicate NotAfter(a: Event, b: Event) {
    a.time < b.time || (a.time == b.time && a.change <= b.change)
  }

  ghost predicate InOrder(es: seq<Event>) {
    forall i, j :: 0 <= i < j < |es| ==> NotAfter(es[i], es[j])
  }

  function Insert(es: seq<Event>, e: Event): (r: seq<Event>)
    ensures multiset(r) == multiset(es) + multiset{e}
  {
    if |es| == 0 || NotAfter(es[|es| - 1], e) then es + [e]
    else
      assert es == es[..|es| - 1] + [es[|es| - 1]];
      Insert(es[..|es| - 1], e) + [es[|es| - 1]]
  }

  /** The library's stable sort by (time, change). */
  function Sort(es: seq<Event>): (r: seq<Event>)
    ensures multiset(r) == multiset(es)
  {
    if |es| == 0 then []
    else
      assert es == es[..|es| - 1] + [es[|es| - 1]];
      Insert(Sort(es[..|es| - 1]), es[|es| - 1])
  }

  lemma {:induction false} InsertKeepsOrder(es: seq<Event>, e: Event)
    requires InOrder(es)
    ensures InOrder(Insert(es, e))
  {
    if |es| > 0 && !NotAfter(es[|es| - 1], e) {
      var front, last := es[..|es| - 1], es[|es| - 1];
      InsertKeepsOrder(front, e);
      var r := Insert(front, e);
      forall i | 0 <= i < |r| ensures NotAfter(r[i], last) {
        assert r[i] in multiset(r);
        assert r[i] == e || r[i] in front;
      }
    }
  }

  lemma {:induction false} SortSorts(es: seq<Event>)
    ensures InOrder(Sort(es))
  {
    if |es| > 0 {
      SortSorts(es[..|es| - 1]);
      InsertKeepsOrder(Sort(es[..|es| - 1]), es[|es| - 1]);
    }
  }

  /** Two events for every dispatched record. */
  function Events(rows: seq<Interval>): seq<Event> {
    if |rows| == 0 then []
    else
      var before, r := Events(rows[..|rows| - 1]), rows[|rows| - 1];
      if r.dispatch.None? then before
      else before + [Event(r.enqueue, 1)] + [Event(r.dispatch.value, -1)]
  }

  /** The running sum over a list of events. */
  function Level(es: seq<Event>): int {
    if |es| == 0 then 0 else Level(es[..|es| - 1]) + es[|es| - 1].change
  }

  /** The changes of the events up to and including time t. */
  function LevelAt(es: seq<Event>, t: real): int {
    if |es| == 0 then 0
    else LevelAt(es[..|es| - 1], t) + if es[|es| - 1].time <= t then es[|es| - 1].change else 0
  }

  function Peak(es: seq<Event>): int {
    if |es| == 0 then 0 else
      var before, level := Peak(es[..|es| - 1]), Level(es);
      if level > before then level else before
  }

  method MaxQueueDepth(rows: seq<Interval>) returns (peak: int)
    ensures peak == Peak(Sort(Events(rows)))
  {
    var events: seq<Event> := [];
    for i := 0 to |rows|
      invariant events == Events(rows[..i])
    {
      assert rows[..i + 1][..i] == rows[..i];
      if rows[i].dispatch.Some? {
        events := events + [Event(rows[i].enqueue, 1)];
        events := events + [Event(rows[i].dispatch.value, -1)];
      }
    }
    assert rows[..|rows|] == rows;
    events := Sort(events);
    var depth := 0;
    peak := 0;
    for k := 0 to |events|
      invariant depth == Level(events[..k]) && peak == Peak(events[..k])
    {
      assert events[..k + 1][..k] == events[..k];
      depth := depth + events[k].change;
      peak := if depth > peak then depth else peak;
    }
    assert events[..|events|] == events;
  }

  // ---------------------------------------------------------------- it is the peak of the waiting set

  lemma LevelAtAppend(es: seq<Event>, e: Event, t: real)
    ensures LevelAt(es + [e], t) == LevelAt(es, t) + if e.time <= t then e.change else 0
  {
    assert (es + [e])[..|es|] == es;
  }

  lemma {:induction false} InsertLevelAt(es: seq<Event>, e: Event, t: real)
    ensures LevelAt(Insert(es, e), t) == LevelAt(es, t) + if e.time <= t then e.change else 0
  {
    if |es| == 0 || NotAfter(es[|es| - 1], e) {
      LevelAtAppend(es, e, t);
    } else {
      InsertLevelAt(es[..|es| - 1], e, t);
      LevelAtAppend(Insert(es[..|es| - 1], e), es[|es| - 1], t);
    }
  }

  lemma {:induction false} SortLevelAt(es: seq<Event>, t: real)
    ensures LevelAt(Sort(es), t) == LevelAt(es, t)
  {
    if |es| > 0 {
      SortLevelAt(es[..|es| - 1], t);
      InsertLevelAt(Sort(es[..|es| - 1]), es[|es| - 1], t);
    }
  }

  /** Dispatched records left no earlier than they entered. */
  predicate Ordered(rows: seq<Interval>) {
    forall i :: 0 <= i < |rows| ==> rows[i].dispatch.Some? ==> rows[i].enqueue <= rows[i].dispatch.value
  }

  /** The signed events up to t count the requests waiting at t. */
  lemma {:induction false} EventsCount(rows: seq<Interval>, t: real)
    requires Ordered(rows)
    ensures LevelAt(Events(rows), t) == Count(rows, t)
  {
    if |rows| > 0 {
      var before, r := rows[..|rows| - 1], rows[|rows| - 1];
      EventsCount(before, t);
      if r.dispatch.Some? {
        LevelAtAppend(Events(before), Event(r.enqueue, 1), t);
        LevelAtAppend(Events(before) + [Event(r.enqueue, 1)], Event(r.dispatch.value, -1), t);
      }
    }
  }

  /** In time order, the level at t is a running sum. */
  lemma {:induction false} LevelAtIsPrefix(es: seq<Event>, t: real) returns (m: nat)
    requires InOrder(es)
    ensures m <= |es| && LevelAt(es, t) == Level(es[..m])
  {
    if |es| == 0 {
      m := 0;
    } else if es[|es| - 1].time <= t {
      m := |es|;
      AllCounted(es, t);
      assert es[..m] == es;
    } else {
      m := LevelAtIsPrefix(es[..|es| - 1], t);
      assert es[..|es| - 1][..m] == es[..m];
    }
  }

  lemma {:induction false} AllCounted(es: seq<Event>, t: real)
    requires forall i :: 0 <= i < |es| ==> es[i].time <= t
    ensures LevelAt(es, t) == Level(es)
  {
    if |es| > 0 {
      AllCounted(es[..|es| - 1], t);
    }
  }

  lemma {:induction false} PeakCovers(es: seq<Event>, m: nat)
    requires m <= |es|
    ensures Level(es[..m]) <= Peak(es) && 0 <= Peak(es)
  {
    if m < |es| {
      PeakCovers(es[..|es| - 1], m);
      assert es[..|es| - 1][..m] == es[..m];
    } else {
      assert es[..m] == es;
      if m > 0 {
        PeakCovers(es[..m - 1], m - 1);
      }
    }
  }

  /** After an arrival, the events still to come at the same time are arrivals too. */
  lemma {:induction false} LaterOnlyArrive(es: seq<Event>, k: nat)
    requires InOrder(es) && 0 < k <= |es| && es[k - 1].change >= 0
    ensures Level(es[..k]) <= LevelAt(es, es[k - 1].time)
    decreases |es|
  {
    if k == |es| {
      AllCounted(es, es[k - 1].time);
      assert es[..k] == es;
    } else {
      LaterOnlyArrive(es[..|es| - 1], k);
      assert es[..|es| - 1][..k] == es[..k];
      assert NotAfter(es[k - 1], es[|es| - 1]);
    }
  }

  /** The peak is zero or first reached by an arrival. */
  lemma {:induction false} PeakIsArrival(es: seq<Event>, n: nat) returns (k: nat)
    requires n <= |es|
    ensures k <= n && (Peak(es[..n]) == 0 || (k > 0 && es[k - 1].change > 0 && Level(es[..k]) == Peak(es[..n])))
  {
    if n == 0 {
      k := 0;
    } else {
      k := PeakIsArrival(es, n - 1);
      assert es[..n][..n - 1] == es[..n - 1];
      if Level(es[..n]) > Peak(es[..n - 1]) {
        PeakCovers(es[..n - 1], n - 1);
        assert es[..n - 1][..n - 1] == es[..n - 1];
        k := n;
      }
    }
  }

  lemma {:induction false} EventTimes(rows: seq<Interval>, e: Event)
    requires e in Events(rows)
    ensures e.time in Times(rows)
  {
    var before, r := rows[..|rows| - 1], rows[|rows| - 1];
    if e in Events(before) {
      EventTimes(before, e);
    }
  }

  /** At no moment do more requests wait than the report's peak, and at some event exactly that many do. */
  lemma PeakIsLargest(rows: seq<Interval>)
    requires Ordered(rows)
    ensures IsPeak(rows, Peak(Sort(Events(rows))))
    ensures forall t :: Count(rows, t) <= Peak(Sort(Events(rows)))
  {
    var es := Sort(Events(rows));
    SortSorts(Events(rows));
    forall t ensures Count(rows, t) <= Peak(es) {
      CountIsLevel(rows, t);
      var m := LevelAtIsPrefix(es, t);
      PeakCovers(es, m);
    }
    PeakCovers(es, 0);
    var k := PeakIsArrival(es, |es|);
    assert es[..|es|] == es;
    if Peak(es) != 0 {
      var t := es[k - 1].time;
      LaterOnlyArrive(es, k);
      CountIsLevel(rows, t);
      assert es[k - 1] in multiset(es);
      EventTimes(rows, es[k - 1]);
    }
  }

  lemma CountIsLevel(rows: seq<Interval>, t: real)
    requires Ordered(rows)
    ensures Count(rows, t) == LevelAt(Sort(Events(rows)), t)
  {
    EventsCount(rows, t);
    SortLevelAt(Events(rows), t);
  }

  /** The two reconstructions agree on the peak of every replayed trace. */
  lemma ReportAgreesWithReplay(rows: seq<Interval>, thresholds: seq<int>, s: Summary)
    requires AllValid(rows) && Faithful(rows, thresholds, s)
    ensures Peak(Sort(Events(rows))) == s.peak
  {
    PeakIsLargest(rows);
    PeakIsUnique(rows, Peak(Sort(Events(rows))), s.peak);
  }
}
