/**
 The depth each of the probe's decisions is told: the number of requests that had arrived when the pass began and are
 still waiting when its moment is over.
*/
module ProbeDepths {
  import opened Models
  import opened ProbeJournal
  import opened ProbeQueue
  import opened ProbeScript

  /** The requests sent up to t. */
  function SentBy(times: seq<real>, t: real): (n: nat)
    ensures n <= |times|
  {
    if |times| == 0 then 0
    else
      var k := |times| - 1;
      SentBy(times[..k], t) + if times[k] <= t then 1 else 0
  }

  /** Arrived before t, or, with ties, at t. */
  predicate Arrived(e: Envelope, t: real, ties: bool) {
    e.arrival < t || (ties && e.arrival == t)
  }

  function ArrivedBy(requests: seq<Envelope>, t: real, ties: bool): (n: nat)
    ensures n <= |requests|
  {
    if |requests| == 0 then 0
    else
      var k := |requests| - 1;
      ArrivedBy(requests[..k], t, ties) + if Arrived(requests[k], t, ties) then 1 else 0
  }

  /**
   The line when request i is sent at t: slots are filled before a moment's arrivals are admitted and again after, so
   those arrivals are in it exactly when i is one of them.
  */
  function LineFor(requests: seq<Envelope>, i: nat, t: real): nat
    requires i < |requests|
  {
    ArrivedBy(requests, t, requests[i].arrival == t)
  }

  /** How much of that line is left once the moment is over. */
  function LeftWaiting(requests: seq<Envelope>, times: seq<real>, i: nat): nat
    requires i < |times| && |times| <= |requests|
  {
    Over(LineFor(requests, i, times[i]), SentBy(times, times[i]))
  }

  function Over(n: nat, m: nat): nat {
    if n > m then n - m else 0
  }

  // ---------------------------------------------------------------- counting in an ordered list

  lemma {:induction false} Ordered(requests: seq<Envelope>, i: nat, j: nat)
    requires InArrivalOrder(requests, |requests|) && i <= j < |requests|
    ensures requests[i].arrival <= requests[j].arrival
    decreases j
  {
    if i < j {
      assert NoEarlier(requests, j);
      Ordered(requests, i, j - 1);
    }
  }

  lemma {:induction false} CountOfPrefix(requests: seq<Envelope>, t: real, ties: bool, n: nat)
    requires forall i :: 0 <= i < |requests| ==> (Arrived(requests[i], t, ties) <==> i < n)
    ensures ArrivedBy(requests, t, ties) == if n <= |requests| then n else |requests|
  {
    if |requests| > 0 {
      CountOfPrefix(requests[..|requests| - 1], t, ties, n);
    }
  }

  lemma ArrivedIsNext(requests: seq<Envelope>, t: real, ties: bool, next: nat)
    requires InArrivalOrder(requests, |requests|) && next <= |requests|
    requires next > 0 ==> Arrived(requests[next - 1], t, ties)
    requires next < |requests| ==> !Arrived(requests[next], t, ties)
    ensures ArrivedBy(requests, t, ties) == next
  {
    forall i | 0 <= i < |requests| ensures Arrived(requests[i], t, ties) <==> i < next {
      if i < next {
        Ordered(requests, i, next - 1);
      } else {
        Ordered(requests, next, i);
      }
    }
    CountOfPrefix(requests, t, ties, next);
  }

  lemma {:induction false} AllSentBy(times: seq<real>, t: real)
    requires forall i :: 0 <= i < |times| ==> times[i] <= t
    ensures SentBy(times, t) == |times|
  {
    if |times| > 0 {
      AllSentBy(times[..|times| - 1], t);
    }
  }

  // ---------------------------------------------------------------- what every script keeps

  /** The position in the list up to which requests can be sent before time passes. */
  function Reach(v: View): int {
    |v.journal.times| + MAX_IN_FLIGHT - |v.completions|
  }

  /** Decision i was told what is left of its line: by now, or, while its moment lasts, once every slot is filled. */
  ghost predicate DepthAt(st: Setting, v: View, i: nat)
    requires i < |v.journal.times| == |v.journal.decisions| <= |st.requests| && Reach(v) >= 0
  {
    var t, q := v.journal.times[i], v.journal.decisions[i].qInst;
    var n := LineFor(st.requests, i, t);
    t <= v.now && if t < v.now then q == Over(n, SentBy(v.journal.times, t)) else n <= v.next && q == Over(n, Reach(v))
  }

  /** No arrival to come lies in the past; while an earlier request waits beside a free slot, none of now is in line. */
  ghost predicate Timely(st: Setting, v: View)
    requires v.next <= |st.requests|
  {
    && (v.next < |st.requests| ==> st.requests[v.next].arrival >= v.now)
    && (|v.waiting| > 0 && |v.completions| < MAX_IN_FLIGHT && v.waiting[0].arrival < v.now && v.next > 0 ==>
          st.requests[v.next - 1].arrival < v.now)
  }

  ghost predicate Told(st: Setting, v: View) {
    && |v.journal.times| == |v.journal.decisions| <= |st.requests| && v.next <= |st.requests| && Reach(v) >= 0
    && Timely(st, v)
    && forall i :: 0 <= i < |v.journal.times| ==> DepthAt(st, v, i)
  }

  /** The waiting stretch of the list, the slots and the arrivals so far. */
  ghost predicate InLine(st: Setting, v: View) {
    && Queued(st.requests, |v.journal.times|, v.waiting, v.next) && |v.completions| <= MAX_IN_FLIGHT
    && (forall i :: 0 <= i < v.next ==> st.requests[i].arrival <= v.now)
    && (|v.completions| > 0 ==> v.completions[0] > v.now)
    && (forall i :: 0 <= i < |v.journal.times| ==> v.journal.times[i] <= v.now)
  }

  lemma SaneIsInLine(st: Setting, v: View)
    requires |st.requests| > 0 && Sane(st, v)
    ensures InLine(st, v)
  {
  }

  lemma SentIsTimely(st: Setting, v: View, e: Event)
    requires InArrivalOrder(st.requests, |st.requests|) && InLine(st, v) && Told(st, v) && e.Sent? && Allowed(st, v, e)
    ensures Timely(st, Next(st, v, e))
    ensures |v.journal.times| < v.next && LineFor(st.requests, |v.journal.times|, v.now) == v.next
  {
    var i := |v.journal.times|;
    assert v.waiting[0] == st.requests[i];
    if |v.waiting| > 1 {
      assert v.waiting[1] == st.requests[i + 1];
      Ordered(st.requests, i, i + 1);
    }
    ArrivedIsNext(st.requests, v.now, st.requests[i].arrival == v.now, v.next);
  }

  lemma SentIsTold(st: Setting, v: View, e: Event)
    requires InArrivalOrder(st.requests, |st.requests|) && InLine(st, v) && Told(st, v) && e.Sent? && Allowed(st, v, e)
    ensures Told(st, Next(st, v, e))
  {
    var v', n := Next(st, v, e), |v.journal.times|;
    SentIsTimely(st, v, e);
    assert v'.journal.times[..n] == v.journal.times;
    forall i | 0 <= i < |v'.journal.times| ensures DepthAt(st, v', i) {
      if i < n {
        assert DepthAt(st, v, i);
      }
    }
  }

  lemma ArrivedIsTold(st: Setting, v: View)
    requires InArrivalOrder(st.requests, |st.requests|) && InLine(st, v) && Told(st, v) && Allowed(st, v, Event.Arrived)
    ensures Told(st, Next(st, v, Event.Arrived))
  {
    var v' := Next(st, v, Event.Arrived);
    if v'.next < |st.requests| {
      Ordered(st.requests, v.next, v'.next);
    }
    forall i | 0 <= i < |v'.journal.times| ensures DepthAt(st, v', i) {
      assert DepthAt(st, v, i);
    }
  }

  lemma PassedIsTold(st: Setting, v: View, e: Event)
    requires InLine(st, v) && Told(st, v) && e.Passed? && Allowed(st, v, e)
    ensures Told(st, Next(st, v, e))
  {
    var v' := Next(st, v, e);
    forall i | 0 <= i < |v'.journal.times| ensures DepthAt(st, v', i) {
      assert DepthAt(st, v, i);
      if v.journal.times[i] == v.now < e.to {
        AllSentBy(v.journal.times, v.now);
      }
    }
  }

  lemma {:induction false} ScriptsAreTold(st: Setting, script: seq<Event>, views: seq<View>, v: View, k: nat)
    requires Usable(st) && InArrivalOrder(st.requests, |st.requests|)
    requires Leads(st, script, views, v) && k <= |script|
    ensures forall i :: 0 <= i <= k ==> Told(st, views[i])
  {
    if k > 0 {
      ScriptsAreTold(st, script, views, v, k - 1);
      NextIsTold(st, script, views, v, k - 1);
    } else {
      NothingIsTold(st);
    }
  }

  lemma NextIsTold(st: Setting, script: seq<Event>, views: seq<View>, v: View, k: nat)
    requires Usable(st) && InArrivalOrder(st.requests, |st.requests|)
    requires Leads(st, script, views, v) && k < |script|
    requires forall i :: 0 <= i <= k ==> Told(st, views[i])
    ensures forall i :: 0 <= i <= k + 1 ==> Told(st, views[i])
  {
    AlwaysInLine(st, script, views, v, k);
    assert StepAt(st, script, views, k);
    EventIsTold(st, views[k], script[k], views[k + 1]);
  }

  lemma AlwaysInLine(st: Setting, script: seq<Event>, views: seq<View>, v: View, k: nat)
    requires Usable(st) && Leads(st, script, views, v) && k <= |script|
    ensures InLine(st, views[k])
  {
    ScriptsAreSane(st, script, views, v, k);
    SaneIsInLine(st, views[k]);
  }

  lemma NothingIsTold(st: Setting)
    requires Usable(st)
    ensures Told(st, Start(st))
  {
  }

  lemma EventIsTold(st: Setting, v: View, e: Event, v': View)
    requires InArrivalOrder(st.requests, |st.requests|) && InLine(st, v) && Told(st, v)
    requires Allowed(st, v, e) && v' == Next(st, v, e)
    ensures Told(st, v')
  {
    match e
    case Sent(_, _, _, _, _) => SentIsTold(st, v, e);
    case Arrived => ArrivedIsTold(st, v);
    case Passed(_) => PassedIsTold(st, v, e);
  }

  /** When everything has been sent, every decision was told what was left of its line after its moment. */
  lemma DepthsAreLeftWaiting(st: Setting, script: seq<Event>, views: seq<View>, v: View)
    requires Usable(st) && InArrivalOrder(st.requests, |st.requests|) && Leads(st, script, views, v)
    requires |v.journal.times| == |st.requests|
    ensures |v.journal.decisions| == |v.journal.times|
    ensures forall i :: 0 <= i < |v.journal.times| ==>
              v.journal.decisions[i].qInst == LeftWaiting(st.requests, v.journal.times, i)
  {
    ScriptsAreTold(st, script, views, v, |script|);
    ScriptsAreSane(st, script, views, v, |script|);
    forall i | 0 <= i < |v.journal.times|
      ensures v.journal.decisions[i].qInst == LeftWaiting(st.requests, v.journal.times, i)
    {
      assert DepthAt(st, v, i);
      if v.journal.times[i] == v.now {
        AllSentBy(v.journal.times, v.now);
      }
    }
  }
}
