/**
 A run of the probe as a script of events. Whatever a legal script does, the waiting line, the trace and the journal
 stay true; the simulation only has to follow one.
*/
module ProbeScript {
  import opened AdaptiveClipping
  import opened ControllerLog
  import opened Models
  import opened ProbeJournal
  import opened ProbeQueue
  import opened TraceStatistics
  import Sorting = Statistics

  /** Where a simulation stands. */
  datatype View = View(
    now: real, waiting: seq<Envelope>, next: nat, completions: seq<real>, lastDispatch: real, journal: Journal,
    spans: seq<Span>, signal: Signal, levels: LevelState)

  /** The head of the line is sent under a decision about depth q, the next request arrives, or time passes. */
  datatype Event =
    | Sent(q: nat, d: Decision, signal: Signal, levels: LevelState, end: real)
    | Arrived
    | Passed(to: real)

  /** The fixed parameters of a simulation. */
  datatype Setting = Setting(requests: seq<Envelope>, p: Predictor, cfg: Config, decay: real -> real)

  ghost predicate Usable(st: Setting) {
    Fresh(st.requests) && |st.requests| > 0 && ValidConfig(st.cfg)
  }

  function SpanTo(v: View, to: real): Span {
    Span(v.now, to, |v.waiting|, v.levels.level, |v.journal.times|)
  }

  function SpansTo(v: View, to: real): seq<Span> {
    if v.now < to then v.spans + [SpanTo(v, to)] else v.spans
  }

  /** The effect of an event; one that is not allowed may have none. */
  function Next(st: Setting, v: View, e: Event): View {
    match e
    case Sent(q, d, signal, levels, end) =>
      if |v.waiting| == 0 then v
      else
        View(v.now, v.waiting[1..], v.next, Sorting.Insert(end, v.completions), v.now,
            Entered(v.journal, v.now, end, d),
            v.spans, signal, levels)
    case Arrived =>
      if v.next >= |st.requests| then v else v.(waiting := v.waiting + [st.requests[v.next]], next := v.next + 1)
    case Passed(to) => v.(now := to, completions := NotDue(v.completions, to), spans := SpansTo(v, to))
  }

  /**
   A request is sent under a decision about the depth that filling every slot will leave, and one of this very moment
   only once the moment's arrivals are all in; arrivals are admitted once no earlier request waits beside a free slot;
   time passes to the next arrival or completion at most, and not while a request waits beside a free slot.
  */
  ghost predicate Allowed(st: Setting, v: View, e: Event) {
    match e
    case Sent(q, d, signal, levels, end) =>
      && |v.waiting| > 0 && |v.completions| < MAX_IN_FLIGHT && Publishable(d.selectedCap)
      && end == EndOf(st.p, v.waiting[0], d.selectedCap, v.now)
      && (v.signal.last.Some? ==> v.signal.last.value <= v.now)
      && DecidedBy(st.cfg, st.decay, v.signal, v.levels, q, v.now, d, signal, levels)
      && q == LeftAfterFill(|v.waiting| - 1, |v.completions| + 1)
      && (v.waiting[0].arrival == v.now && v.next < |st.requests| ==> st.requests[v.next].arrival != v.now)
    case Arrived =>
      && v.next < |st.requests| && st.requests[v.next].arrival == v.now
      && (|v.waiting| > 0 && |v.completions| < MAX_IN_FLIGHT ==> v.waiting[0].arrival == v.now)
    case Passed(to) =>
      && v.now <= to && (|v.completions| > 0 ==> to <= v.completions[0])
      && (v.next < |st.requests| ==> to <= st.requests[v.next].arrival)
      && (|v.waiting| > 0 ==> |v.completions| == MAX_IN_FLIGHT)
  }

  function Start(st: Setting): View
    requires |st.requests| > 0
  {
    View(st.requests[0].arrival, [], 0, [], st.requests[0].arrival, BLANK, [], QUIET, INITIAL)
  }

  /** Event k of the script is allowed at views[k] and leads to views[k+1]. */
  ghost predicate StepAt(st: Setting, script: seq<Event>, views: seq<View>, k: nat)
    requires k < |script| && |views| == |script| + 1
  {
    Allowed(st, views[k], script[k]) && views[k + 1] == Next(st, views[k], script[k])
  }

  /** The script leads, by allowed events and through the views, from the start to v. */
  ghost predicate Leads(st: Setting, script: seq<Event>, views: seq<View>, v: View)
    requires |st.requests| > 0
  {
    && |views| == |script| + 1 && views[0] == Start(st) && views[|script|] == v
    && forall k :: 0 <= k < |script| ==> StepAt(st, script, views, k)
  }

  lemma LeadsOn(st: Setting, script: seq<Event>, views: seq<View>, v: View, e: Event)
    requires |st.requests| > 0 && Leads(st, script, views, v) && Allowed(st, v, e)
    ensures Leads(st, script + [e], views + [Next(st, v, e)], Next(st, v, e))
  {
    var script', views' := script + [e], views + [Next(st, v, e)];
    forall k | 0 <= k < |script'| ensures StepAt(st, script', views', k) {
      if k < |script| {
        assert StepAt(st, script, views, k);
      }
    }
  }

  // ---------------------------------------------------------------- what every script keeps

  ghost predicate Line(st: Setting, v: View) {
    Sound(st.requests, v.journal.times, v.waiting, v.next, v.completions, v.lastDispatch, v.spans, v.now)
  }

  ghost predicate Book(st: Setting, v: View) {
    Kept(st.requests, st.p, st.cfg, st.decay, v.journal, v.completions, v.spans, v.signal, v.levels, v.now)
  }

  /** The line, the trace and the journal are true, and the trace has no gap. */
  ghost predicate Sane(st: Setting, v: View)
    requires |st.requests| > 0
  {
    Line(st, v) && Book(st, v) && Contiguous(v.spans, st.requests[0].arrival, v.now)
  }

  lemma SentIsSane(st: Setting, v: View, e: Event)
    requires |st.requests| > 0 && Sane(st, v) && e.Sent? && Allowed(st, v, e)
    ensures Sane(st, Next(st, v, e))
  {
    HeadIsNext(st, v);
    SentKeepsBook(st, v, e);
    ServingIsSound(st.requests, v.journal.times, v.waiting, v.next, v.completions, v.lastDispatch, v.spans, v.now,
        e.end);
  }

  /** The head of the line is the first request not yet sent. */
  lemma HeadIsNext(st: Setting, v: View)
    requires Line(st, v)
    ensures |v.journal.times| + |v.waiting| == v.next <= |st.requests|
    ensures v.next > 0 ==> st.requests[v.next - 1].arrival <= v.now
    ensures |v.completions| <= MAX_IN_FLIGHT && (|v.completions| > 0 ==> v.completions[0] > v.now)
    ensures |v.waiting| > 0 ==> |v.journal.times| < |st.requests| && v.waiting[0] == st.requests[|v.journal.times|]
  {
  }

  lemma SentKeepsBook(st: Setting, v: View, e: Event)
    requires e.Sent? && Allowed(st, v, e) && Book(st, v)
    requires |v.journal.times| < |st.requests| && v.waiting[0] == st.requests[|v.journal.times|]
    ensures Book(st, Next(st, v, e))
  {
    ServingIsKept(st.requests, st.p, st.cfg, st.decay, v.journal, v.completions, v.spans, v.signal, v.levels, v.now,
                  e.q, e.d, e.signal, e.levels, e.end);
  }

  lemma ArrivedIsInLine(st: Setting, v: View)
    requires Line(st, v) && v.next < |st.requests| && st.requests[v.next].arrival == v.now
    ensures Line(st, Next(st, v, Arrived))
  {
    ArrivingIsSound(st.requests, v.journal.times, v.waiting, v.next, v.completions, v.lastDispatch, v.spans, v.now);
  }

  /** An arrival is not in the journal. */
  lemma ArrivedKeepsBook(st: Setting, v: View)
    requires Book(st, v) && v.next < |st.requests|
    ensures Book(st, Next(st, v, Arrived))
  {
  }

  lemma ArrivedIsSane(st: Setting, v: View)
    requires |st.requests| > 0 && Sane(st, v) && Allowed(st, v, Arrived)
    ensures Sane(st, Next(st, v, Arrived))
  {
    ArrivedIsInLine(st, v);
    ArrivedKeepsBook(st, v);
  }

  lemma PassedIsSane(st: Setting, v: View, e: Event)
    requires |st.requests| > 0 && Sane(st, v) && e.Passed? && Allowed(st, v, e)
    ensures Sane(st, Next(st, v, e))
  {
    NoneIsOverdue(st, v, e.to);
    PassingIsKept(st.requests, st.p, st.cfg, st.decay, v.journal, v.completions, v.spans, v.signal, v.levels, v.now,
                  e.to, SpanTo(v, e.to), SpansTo(v, e.to));
    PassingIsSound(st.requests, v.journal.times, v.waiting, v.next, v.completions, v.lastDispatch, v.spans, v.now,
                   e.to, SpanTo(v, e.to), SpansTo(v, e.to));
    PassingIsContiguous(v.spans, st.requests[0].arrival, v.now, e.to, SpanTo(v, e.to), SpansTo(v, e.to));
  }

  lemma NoneIsOverdue(st: Setting, v: View, to: real)
    requires Line(st, v) && (|v.completions| > 0 ==> to <= v.completions[0])
    ensures Sorting.Ascending(v.completions) && |v.completions| <= MAX_IN_FLIGHT
    ensures forall i :: 0 <= i < |v.completions| ==> v.completions[i] >= to
  {
    assert forall i :: 0 <= i < |v.completions| ==> v.completions[0] <= v.completions[i];
  }

  lemma StartIsSane(st: Setting)
    requires Usable(st)
    ensures Sane(st, Start(st))
  {
    BlankIsKept(st.requests, st.p, st.cfg, st.decay, st.requests[0].arrival);
  }

  /** Whatever a legal script does, everything stays true. */
  lemma {:induction false} ScriptsAreSane(st: Setting, script: seq<Event>, views: seq<View>, v: View, k: nat)
    requires Usable(st) && Leads(st, script, views, v) && k <= |script|
    ensures Sane(st, views[k])
  {
    if k == 0 {
      StartIsSane(st);
    } else {
      ScriptsAreSane(st, script, views, v, k - 1);
      assert StepAt(st, script, views, k - 1);
      EventIsSane(st, views[k - 1], script[k - 1], views[k]);
    }
  }

  lemma EventIsSane(st: Setting, v: View, e: Event, v': View)
    requires |st.requests| > 0 && Sane(st, v) && Allowed(st, v, e) && v' == Next(st, v, e)
    ensures Sane(st, v')
  {
    match e
    case Sent(_, _, _, _, _) => SentIsSane(st, v, e);
    case Arrived => ArrivedIsSane(st, v);
    case Passed(_) => PassedIsSane(st, v, e);
  }

  /** At no moment are more than MAX_IN_FLIGHT requests in service. */
  lemma NeverMoreThanMax(st: Setting, v: View, t: real)
    requires |st.requests| > 0 && Sane(st, v)
    requires forall i :: 0 <= i < |v.journal.times| ==> v.journal.times[i] >= st.requests[0].arrival
    ensures Busy(v.journal.times, v.journal.ends, t) <= MAX_IN_FLIGHT
  {
    var j, from := v.journal, st.requests[0].arrival;
    if t >= v.now {
      BusyIsPending(j.times, j.ends, v.completions, v.now);
      BusyFalls(j.times, j.ends, v.now, t);
    } else if t < from {
      NothingBusyBefore(j.times, j.ends, t);
    } else {
      SomeSpanCovers(j, v.spans, from, v.now, v.now, t);
    }
  }
}
