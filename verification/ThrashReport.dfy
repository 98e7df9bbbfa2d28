/** What the thrash gate sees in a decision log, in terms of the log's own levels and times. */
module ThrashReport {
  import opened Filtering
  import opened ThrashCheck

  // ---------------------------------------------------------------- level changes

  function Changes(facts: seq<Fact>): nat -> bool {
    (n: nat) => n < |facts| && facts[n].newLevel != facts[n].oldLevel
  }

  ghost predicate ChangedAt(ts: seq<Fact>, facts: seq<Fact>, at: seq<nat>) {
    |ts| == |at| && forall i :: 0 <= i < |at| ==> Changes(facts)(at[i]) && ts[i] == facts[at[i]]
  }

  lemma TransitionsStep(facts: seq<Fact>, n: nat)
    requires n < |facts|
    ensures var before := Transitions(facts[..n]);
            Transitions(facts[..n + 1]) ==
            if facts[n].newLevel != facts[n].oldLevel then before + [facts[n]] else before
  {
    assert facts[..n + 1][..n] == facts[..n];
  }

  lemma ChangedNext(ts: seq<Fact>, facts: seq<Fact>, n: nat, at: seq<nat>, ts': seq<Fact>) returns (at': seq<nat>)
    requires n < |facts| && Positions(at, n, Changes(facts)) && ChangedAt(ts, facts, at)
    requires ts' == if facts[n].newLevel != facts[n].oldLevel then ts + [facts[n]] else ts
    ensures Positions(at', n + 1, Changes(facts)) && ChangedAt(ts', facts, at')
  {
    PositionsGrow(at, n, Changes(facts));
    at' := if Changes(facts)(n) then at + [n] else at;
  }

  /** The transitions are the facts that change the level, in log order. */
  lemma {:induction false} TransitionsAreChanges(facts: seq<Fact>, n: nat) returns (at: seq<nat>)
    requires n <= |facts|
    ensures Positions(at, n, Changes(facts)) && ChangedAt(Transitions(facts[..n]), facts, at)
    decreases n
  {
    if n == 0 {
      at := [];
    } else {
      var before := TransitionsAreChanges(facts, n - 1);
      TransitionsStep(facts, n - 1);
      at := ChangedNext(Transitions(facts[..n - 1]), facts, n - 1, before, Transitions(facts[..n]));
    }
  }

  // ---------------------------------------------------------------- violated holds

  /** Facts n and m change the level, and none between them does. */
  ghost predicate Successive(facts: seq<Fact>, n: nat, m: nat) {
    n < m && Changes(facts)(n) && Changes(facts)(m) && forall k: nat :: n < k < m ==> !Changes(facts)(k)
  }

  /** The level went up and came down sooner than relaxHold, or went down and came up sooner than tightenHold. */
  predicate TooSoon(a: Fact, b: Fact, tightenHold: real, relaxHold: real) {
    && a.repetition == b.repetition
    && ((a.newLevel > a.oldLevel && b.newLevel < b.oldLevel && b.time - a.time < relaxHold)
        || (a.newLevel < a.oldLevel && b.newLevel > b.oldLevel && b.time - a.time < tightenHold))
  }

  ghost predicate Violates(facts: seq<Fact>, tightenHold: real, relaxHold: real) {
    exists n: nat, m: nat :: Successive(facts, n, m) && TooSoon(facts[n], facts[m], tightenHold, relaxHold)
  }

  lemma NeighboursAreSuccessive(facts: seq<Fact>, at: seq<nat>, i: nat)
    requires Positions(at, |facts|, Changes(facts)) && 0 < i < |at|
    ensures Successive(facts, at[i - 1], at[i])
  {
    forall k: nat | at[i - 1] < k < at[i] ensures !Changes(facts)(k) {
      if Changes(facts)(k) {
        var j :| 0 <= j < |at| && at[j] == k;
        assert false;
      }
    }
  }

  /** No listed change lies strictly between two successive ones. */
  lemma Between(facts: seq<Fact>, at: seq<nat>, n: nat, m: nat, i: int)
    requires Positions(at, |facts|, Changes(facts)) && Successive(facts, n, m)
    ensures 0 <= i < |at| ==> at[i] <= n || m <= at[i]
  {
    if 0 <= i < |at| {
      assert Changes(facts)(at[i]);
    }
  }

  lemma SuccessiveAreNeighbours(facts: seq<Fact>, at: seq<nat>, n: nat, m: nat) returns (i: nat)
    requires Positions(at, |facts|, Changes(facts)) && Successive(facts, n, m)
    ensures 0 < i < |at| && at[i - 1] == n && at[i] == m
  {
    var j :| 0 <= j < |at| && at[j] == n;
    i :| 0 <= i < |at| && at[i] == m;
    Between(facts, at, n, m, i - 1);
  }

  /** The gate's hold check fires exactly when two successive level changes of a repetition reverse too soon. */
  lemma HastyIsViolated(facts: seq<Fact>, tightenHold: real, relaxHold: real)
    ensures Hasty(Transitions(facts), |Transitions(facts)|, tightenHold, relaxHold)
       <==> Violates(facts, tightenHold, relaxHold)
  {
    var ts := Transitions(facts);
    assert facts[..|facts|] == facts;
    var at := TransitionsAreChanges(facts, |facts|);
    forall i | 0 < i < |ts|
      ensures Successive(facts, at[i - 1], at[i])
      ensures TooSoon(facts[at[i - 1]], facts[at[i]], tightenHold, relaxHold) <==>
                Reverses(ts[i - 1], ts[i])
                && ts[i].time - ts[i - 1].time < (if Rises(ts[i - 1]) then relaxHold else tightenHold)
    {
      NeighboursAreSuccessive(facts, at, i);
    }
    if Violates(facts, tightenHold, relaxHold) {
      var n: nat, m: nat :| Successive(facts, n, m) && TooSoon(facts[n], facts[m], tightenHold, relaxHold);
      var i := SuccessiveAreNeighbours(facts, at, n, m);
    }
  }

  // ---------------------------------------------------------------- reported reversals and cycles

  /** Transitions i and i+1 belong to one repetition and go opposite ways. */
  function TurnsAt(ts: seq<Fact>): nat -> bool {
    (i: nat) => i + 1 < |ts| && ts[i].repetition == ts[i + 1].repetition
      && (ts[i].newLevel > ts[i].oldLevel) != (ts[i + 1].newLevel > ts[i + 1].oldLevel)
  }

  /** The report's reversal for transitions i and i+1. */
  predicate TellsTurn(r: Reverse, a: Fact, b: Fact, tightenHold: real, relaxHold: real) {
    && r.fromTighten == (a.newLevel > a.oldLevel) && r.interval == b.time - a.time
    && r.required == if a.newLevel > a.oldLevel then relaxHold else tightenHold
  }

  /** The reversals reported are those of the transitions at the positions. */
  ghost predicate TellsTurns(rs: seq<Reverse>, ts: seq<Fact>, at: seq<nat>, tightenHold: real, relaxHold: real) {
    |rs| == |at| && forall k :: 0 <= k < |at| ==>
      at[k] + 1 < |ts| && TellsTurn(rs[k], ts[at[k]], ts[at[k] + 1], tightenHold, relaxHold)
  }

  lemma TellsOneMore(
    rs: seq<Reverse>, ts: seq<Fact>, at: seq<nat>, tightenHold: real, relaxHold: real, r: Reverse, i: nat)
    requires TellsTurns(rs, ts, at, tightenHold, relaxHold)
    requires i + 1 < |ts| && TellsTurn(r, ts[i], ts[i + 1], tightenHold, relaxHold)
    ensures TellsTurns(rs + [r], ts, at + [i], tightenHold, relaxHold)
  {
  }

  lemma TurnsNext(
    rs: seq<Reverse>, ts: seq<Fact>, n: nat, at: seq<nat>, tightenHold: real, relaxHold: real, rs': seq<Reverse>,
    kept: nat -> bool)
    returns (at': seq<nat>)
    requires n + 1 < |ts| && Positions(at, n, kept) && TellsTurns(rs, ts, at, tightenHold, relaxHold)
    requires kept(n) == Reverses(ts[n], ts[n + 1])
    requires rs' == if !Reverses(ts[n], ts[n + 1]) then rs
                    else rs + [ReverseOf(ts[n], ts[n + 1], tightenHold, relaxHold)]
    ensures Positions(at', n + 1, kept) && TellsTurns(rs', ts, at', tightenHold, relaxHold)
  {
    PositionsGrow(at, n, kept);
    if kept(n) {
      at' := at + [n];
      TellsOneMore(rs, ts, at, tightenHold, relaxHold, ReverseOf(ts[n], ts[n + 1], tightenHold, relaxHold), n);
    } else {
      at' := at;
    }
  }

  lemma ReversesStep(ts: seq<Fact>, n: nat, tightenHold: real, relaxHold: real)
    requires n + 1 < |ts|
    ensures var before := ReversesUpTo(ts, n + 1, tightenHold, relaxHold);
            ReversesUpTo(ts, n + 2, tightenHold, relaxHold) ==
            if !Reverses(ts[n], ts[n + 1]) then before
            else before + [ReverseOf(ts[n], ts[n + 1], tightenHold, relaxHold)]
  {
  }

  /** The report lists every reversal, in order, with its direction, its interval and the hold it had to respect. */
  lemma {:induction false} ReversesAreTurns(ts: seq<Fact>, n: nat, tightenHold: real, relaxHold: real)
    returns (at: seq<nat>)
    requires n < |ts|
    ensures Positions(at, n, TurnsAt(ts))
    ensures TellsTurns(ReversesUpTo(ts, n + 1, tightenHold, relaxHold), ts, at, tightenHold, relaxHold)
    decreases n
  {
    if n == 0 {
      at := [];
    } else {
      var before := ReversesAreTurns(ts, n - 1, tightenHold, relaxHold);
      ReversesStep(ts, n - 1, tightenHold, relaxHold);
      at := TurnsNext(ReversesUpTo(ts, n, tightenHold, relaxHold), ts, n - 1, before, tightenHold, relaxHold,
                      ReversesUpTo(ts, n + 1, tightenHold, relaxHold), TurnsAt(ts));
    }
  }

  /** Transitions i, i+1 and i+2 of one repetition tighten, relax and tighten again. */
  function CyclesAt(ts: seq<Fact>): nat -> bool {
    (i: nat) => i + 2 < |ts| && ts[i].repetition == ts[i + 1].repetition == ts[i + 2].repetition
      && ts[i].newLevel > ts[i].oldLevel && ts[i + 1].newLevel < ts[i + 1].oldLevel
      && ts[i + 2].newLevel > ts[i + 2].oldLevel
  }

  ghost predicate TellsCycles(cs: seq<real>, ts: seq<Fact>, at: seq<nat>) {
    |cs| == |at| && forall k :: 0 <= k < |at| ==> at[k] + 2 < |ts| && cs[k] == ts[at[k] + 2].time - ts[at[k]].time
  }

  lemma TellsCycle(cs: seq<real>, ts: seq<Fact>, at: seq<nat>, c: real, i: nat)
    requires TellsCycles(cs, ts, at) && i + 2 < |ts| && c == ts[i + 2].time - ts[i].time
    ensures TellsCycles(cs + [c], ts, at + [i])
  {
  }

  lemma CyclesNext(
    cs: seq<real>, ts: seq<Fact>, n: nat, at: seq<nat>, cs': seq<real>, kept: nat -> bool, c: real)
    returns (at': seq<nat>)
    requires n + 2 < |ts| && Positions(at, n, kept) && TellsCycles(cs, ts, at)
    requires c == ts[n + 2].time - ts[n].time && cs' == if kept(n) then cs + [c] else cs
    ensures Positions(at', n + 1, kept) && TellsCycles(cs', ts, at')
  {
    PositionsGrow(at, n, kept);
    at' := if kept(n) then at + [n] else at;
    if kept(n) {
      TellsCycle(cs, ts, at, c, n);
    }
  }

  lemma CyclesStep(ts: seq<Fact>, n: nat)
    requires n + 2 < |ts|
    ensures var before := CyclesUpTo(ts, n + 2);
            CyclesUpTo(ts, n + 3) ==
            if IsCycle(ts[n], ts[n + 1], ts[n + 2]) then before + [ts[n + 2].time - ts[n].time] else before
  {
  }

  /** The report lists every tighten-relax-retighten cycle, in order, with its length. */
  lemma {:induction false} CyclesAreListed(ts: seq<Fact>, n: nat) returns (at: seq<nat>)
    requires n + 1 < |ts|
    ensures Positions(at, n, CyclesAt(ts)) && TellsCycles(CyclesUpTo(ts, n + 2), ts, at)
    decreases n
  {
    if n == 0 {
      at := [];
    } else {
      var before := CyclesAreListed(ts, n - 1);
      CyclesStep(ts, n - 1);
      at := CyclesNext(CyclesUpTo(ts, n + 1), ts, n - 1, before, CyclesUpTo(ts, n + 2), CyclesAt(ts),
                       ts[n + 1].time - ts[n - 1].time);
    }
  }
}
