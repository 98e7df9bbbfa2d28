/** The positions that a filter over a sequence keeps. */
module Filtering {

  /** Ascending, and exactly the positions below n at which `kept` holds. */
  ghost predicate Positions(at: seq<nat>, n: nat, kept: nat -> bool) {
    && (forall i, j :: 0 <= i < j < |at| ==> at[i] < at[j])
    && (forall i :: 0 <= i < |at| ==> at[i] < n && kept(at[i]))
    && (forall k: nat :: k < n && kept(k) ==> k in at)
  }

  lemma PositionsGrow(at: seq<nat>, n: nat, kept: nat -> bool)
    requires Positions(at, n, kept)
    ensures Positions(if kept(n) then at + [n] else at, n + 1, kept)
  {
    var at' := if kept(n) then at + [n] else at;
    forall k: nat | k < n + 1 && kept(k) ensures k in at' {
      if k < n {
        var i :| 0 <= i < |at| && at[i] == k;
        assert at'[i] == k;
      } else {
        assert at'[|at|] == n;
      }
    }
  }
}
