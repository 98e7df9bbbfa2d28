/** What the audit accepts: which records and decisions it joins, and what each pair must satisfy. */
module AuditJoin {
  import opened DecisionAudit
  import opened Wrappers

  /** Record i was dispatched, carries the identity, and no later one does. */
  ghost predicate LastRecord(records: seq<Record>, k: Identity, i: nat) {
    && i < |records| && Dispatches(records[i], k)
    && forall j :: i < j < |records| ==> !Dispatches(records[j], k)
  }

  predicate Dispatches(r: Record, k: Identity) {
    r.dispatch.Some? && (r.requestId, r.repetition) == k
  }

  /** Decision i carries the identity, and no later one does. */
  ghost predicate LastFact(facts: seq<Fact>, k: Identity, i: nat) {
    && i < |facts| && Names(facts[i], k)
    && forall j :: i < j < |facts| ==> !Names(facts[j], k)
  }

  predicate Names(f: Fact, k: Identity) {
    (f.requestId, f.repetition) == k
  }

  /** The audit joins, for every identity, the last dispatched record. */
  lemma {:induction false} RecordsJoinLast(records: seq<Record>, k: Identity)
    ensures k in Dispatched(records) <==> exists i: nat :: LastRecord(records, k, i)
    ensures forall i: nat :: LastRecord(records, k, i) ==>
              k in Dispatched(records) && Dispatched(records)[k] == records[i]
  {
    if |records| > 0 {
      var n := |records| - 1;
      var before := records[..n];
      RecordsJoinLast(before, k);
      if Dispatches(records[n], k) {
        assert LastRecord(records, k, n);
      } else {
        forall i: nat ensures LastRecord(records, k, i) <==> LastRecord(before, k, i) {
          if i < n {
            assert records[i] == before[i];
          }
        }
      }
    }
  }

  /** And the last decision. */
  lemma {:induction false} FactsJoinLast(facts: seq<Fact>, k: Identity)
    ensures k in ByIdentity(facts) <==> exists i: nat :: LastFact(facts, k, i)
    ensures forall i: nat :: LastFact(facts, k, i) ==> k in ByIdentity(facts) && ByIdentity(facts)[k] == facts[i]
  {
    if |facts| > 0 {
      var n := |facts| - 1;
      var before := facts[..n];
      FactsJoinLast(before, k);
      if Names(facts[n], k) {
        assert LastFact(facts, k, n);
      } else {
        forall i: nat ensures LastFact(facts, k, i) <==> LastFact(before, k, i) {
          if i < n {
            assert facts[i] == before[i];
          }
        }
      }
    }
  }

  /** The backend limit is what was requested, or the decision's smaller cap. */
  predicate Explained(r: Record, f: Fact)
    requires r.requested.Some? && r.backend.Some?
  {
    || r.backend.value == r.requested.value
    || (f.selectedCap.Some? && f.selectedCap.value == r.backend.value < r.requested.value)
  }

  /**
   An accepted pair: the record is instrumented, its backend limit is explained, and the decision publishes a cap
   exactly at a level above the no-clip level.
  */
  predicate Agrees(r: Record, f: Fact) {
    r.requested.Some? && r.backend.Some? && Explained(r, f) && (f.newLevel == 0 <==> f.selectedCap.None?)
  }

  /** The check accepts exactly the pairs that agree, and otherwise names the first thing wrong. */
  lemma CheckTells(r: Record, f: Fact)
    ensures CheckOne(r, f).Success? <==> Agrees(r, f)
    ensures CheckOne(r, f) == Result.Failure(Uninstrumented) <==> r.requested.None? || r.backend.None?
    ensures CheckOne(r, f) == Result.Failure(CapDisagrees) <==>
              r.requested.Some? && r.backend.Some? && !Explained(r, f)
    ensures CheckOne(r, f) == Result.Failure(CapAtL0) <==>
              r.requested.Some? && r.backend.Some? && Explained(r, f) && f.newLevel == 0 && f.selectedCap.Some?
    ensures CheckOne(r, f) == Result.Failure(CapMissing) <==>
              r.requested.Some? && r.backend.Some? && Explained(r, f) && f.newLevel != 0 && f.selectedCap.None?
  {
  }

  ghost predicate HasRecord(records: seq<Record>, k: Identity) {
    exists i: nat :: LastRecord(records, k, i)
  }

  ghost predicate HasFact(facts: seq<Fact>, k: Identity) {
    exists j: nat :: LastFact(facts, k, j)
  }

  /** The identity is dispatched exactly when a decision names it, and then its last record and last decision agree. */
  ghost predicate Joined(records: seq<Record>, facts: seq<Fact>, k: Identity) {
    && (HasRecord(records, k) <==> HasFact(facts, k))
    && forall i: nat, j: nat :: LastRecord(records, k, i) && LastFact(facts, k, j) ==> Agrees(records[i], facts[j])
  }

  lemma JoinedMeans(records: seq<Record>, facts: seq<Fact>, k: Identity)
    ensures var d, m := Dispatched(records), ByIdentity(facts);
            Joined(records, facts, k) <==> (k in m <==> k in d) && (k in m && k in d ==> CheckOne(d[k], m[k]).Success?)
  {
    RecordsJoinLast(records, k);
    FactsJoinLast(facts, k);
    var d, m := Dispatched(records), ByIdentity(facts);
    if k in m && k in d {
      CheckTells(d[k], m[k]);
    }
  }

  /** The audit accepts a log exactly when every identity is joined. */
  lemma AcceptanceIsAgreement(records: seq<Record>, facts: seq<Fact>)
    ensures Reconciles(records, facts) <==> forall k: Identity :: Joined(records, facts, k)
  {
    var d, m := Dispatched(records), ByIdentity(facts);
    forall k: Identity
      ensures Joined(records, facts, k) <==>
                (k in m <==> k in d) && (k in m && k in d ==> CheckOne(d[k], m[k]).Success?)
    {
      JoinedMeans(records, facts, k);
    }
    if forall k: Identity :: Joined(records, facts, k) {
      assert forall k :: k in m ==> Joined(records, facts, k) && k in d;
      assert forall k :: k in d ==> Joined(records, facts, k) && k in m;
    }
  }
}
