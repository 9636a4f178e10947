/** The batch endpoint: every item is checked before any is written, then the items are written in
    order, each in its own transaction. */
module Ingestion {
  import opened Domain
  import opened ObservationLog
  import opened LogStore

  // The authenticated collector and what the endpoint is configured with.
  datatype Principal = Principal(tenant: string, source: string)

  datatype Rejection = TenantMismatch | SourceMismatch | OntologyViolation

  datatype BatchResult =
    | TooLarge
    | Refused(index: nat, reason: Rejection)
    | Unavailable(index: nat)
    | Ingested(results: seq<PutOutcome>, created: nat, existing: nat, conflict: nat)

  // _scope_check, then validate_observation, which without an object checks no edge.
  function Check(ont: Ontology, who: Principal, o: Observation): Option<Rejection> {
    if o.tenant != who.tenant then Some(TenantMismatch)
    else if o.source != who.source then Some(SourceMismatch)
    else if o.relationship.Some? && o.obj.Some?
            && !ValidEdge(ont, o.relationship.value, o.subject.etype, o.obj.value.etype) then Some(OntologyViolation)
    else None
  }

  // The collector may send the observation: it names the collector's tenant and source, and its edge, if it
  // has one, obeys the ontology.
  predicate Admitted(ont: Ontology, who: Principal, o: Observation) {
    && o.tenant == who.tenant && o.source == who.source
    && (o.relationship.Some? && o.obj.Some? ==>
          && o.relationship.value in ont.sources && o.subject.etype in ont.sources[o.relationship.value]
          && o.relationship.value in ont.targets && o.obj.value.etype in ont.targets[o.relationship.value])
  }

  // The first of these it fails.
  predicate RefusedFor(ont: Ontology, who: Principal, o: Observation, reason: Rejection) {
    match reason
    case TenantMismatch => o.tenant != who.tenant
    case SourceMismatch => o.tenant == who.tenant && o.source != who.source
    case OntologyViolation => o.tenant == who.tenant && o.source == who.source && !Admitted(ont, who, o)
  }

  lemma CheckRead(ont: Ontology, who: Principal, o: Observation)
    ensures Check(ont, who, o).None? <==> Admitted(ont, who, o)
    ensures Check(ont, who, o).Some? ==> RefusedFor(ont, who, o, Check(ont, who, o).value)
  {
  }

  predicate Conflicted(r: PutOutcome) {
    r.ObservationConflict? || r.EvidenceConflict?
  }

  function Count(results: seq<PutOutcome>, p: PutOutcome -> bool): nat {
    if results == [] then 0
    else Count(results[..|results| - 1], p) + (if p(results[|results| - 1]) then 1 else 0)
  }

  lemma CountPlus(results: seq<PutOutcome>, r: PutOutcome, p: PutOutcome -> bool)
    ensures Count(results + [r], p) == Count(results, p) + (if p(r) then 1 else 0)
  {
    assert (results + [r])[..|results|] == results;
  }

  // The state of the second phase after its first i items.
  ghost predicate WrittenSoFar(log: seq<Observation>, items: seq<Observation>, i: nat, now: seq<Observation>, results: seq<PutOutcome>)
    requires i <= |items|
  {
    && |results| == i
    && LogAfterAll(log, items) == LogAfterAll(now, items[i..])
    && OutcomesOf(log, items) == results + OutcomesOf(now, items[i..])
    && (forall k | 0 <= k < i :: results[k] != IntegrityFailure)
  }

  lemma NextWritten(log: seq<Observation>, items: seq<Observation>, i: nat, now: seq<Observation>, results: seq<PutOutcome>)
    requires i < |items| && WrittenSoFar(log, items, i, now, results)
    ensures OutcomeOf(now, items[i]) == IntegrityFailure ==>
      LogAfterAll(log, items) == now && OutcomesOf(log, items) == results + [IntegrityFailure]
    ensures OutcomeOf(now, items[i]) != IntegrityFailure ==>
      WrittenSoFar(log, items, i + 1, LogAfter(now, items[i]), results + [OutcomeOf(now, items[i])])
  {
    hide OutcomeOf, LogAfter;
    assert items[i..][1..] == items[i + 1..] && items[i..][0] == items[i];
  }

  lemma AllWritten(log: seq<Observation>, items: seq<Observation>, now: seq<Observation>, results: seq<PutOutcome>)
    requires WrittenSoFar(log, items, |items|, now, results)
    ensures LogAfterAll(log, items) == now && OutcomesOf(log, items) == results
  {
  }

  /** ingest_observation_batch. A batch that is refused writes nothing; otherwise the items are
      written in order, up to the first that fails unexpectedly. */
  method IngestBatch(store: Store, ont: Ontology, who: Principal, items: seq<Observation>, maxItems: nat,
                     ghost log: seq<Observation>)
    returns (result: BatchResult)
    requires Represents(store.Snapshot(), log)
    modifies store
    ensures result.TooLarge? <==> |items| > maxItems
    ensures result.Refused? ==>
      result.index < |items| && RefusedFor(ont, who, items[result.index], result.reason)
      && forall i | 0 <= i < result.index :: Admitted(ont, who, items[i])
    ensures (result.Unavailable? || result.Ingested?) <==>
      |items| <= maxItems && forall o | o in items :: Admitted(ont, who, o)
    ensures result.TooLarge? || result.Refused? ==> store.Snapshot() == old(store.Snapshot())
    ensures result.Unavailable? || result.Ingested? ==> Represents(store.Snapshot(), LogAfterAll(log, items))
    ensures result.Unavailable? ==>
      |OutcomesOf(log, items)| == result.index + 1 && OutcomesOf(log, items)[result.index] == IntegrityFailure
    ensures result.Ingested? ==>
      && result.results == OutcomesOf(log, items) && |result.results| == |items|
      && result.created == Count(result.results, (r: PutOutcome) => r.Created?)
      && result.existing == Count(result.results, (r: PutOutcome) => r.Existing?)
      && result.conflict == Count(result.results, (r: PutOutcome) => Conflicted(r))
      && result.created + result.existing + result.conflict == |items|
  {
    hide Represents, OutcomeOf, LogAfter, OutcomesOf, LogAfterAll, WriteRows, Admitted, RefusedFor, Check;
    if |items| > maxItems {
      return TooLarge;
    }
    for i := 0 to |items|
      invariant store.Snapshot() == old(store.Snapshot())
      invariant forall k | 0 <= k < i :: Admitted(ont, who, items[k])
    {
      CheckRead(ont, who, items[i]);
      var rejection := Check(ont, who, items[i]);
      if rejection.Some? {
        return Refused(i, rejection.value);
      }
    }
    var results: seq<PutOutcome> := [];
    var created, existing, conflict := 0, 0, 0;
    ghost var now := log;
    assert items[0..] == items;
    for i := 0 to |items|
      invariant Represents(store.Snapshot(), now) && WrittenSoFar(log, items, i, now, results)
      invariant created == Count(results, (r: PutOutcome) => r.Created?)
      invariant existing == Count(results, (r: PutOutcome) => r.Existing?)
      invariant conflict == Count(results, (r: PutOutcome) => Conflicted(r))
      invariant created + existing + conflict == i
    {
      WriteRefines(store.Snapshot(), now, items[i]);
      NextWritten(log, items, i, now, results);
      var a := store.Put(items[i]);
      var outcome := a.outcome;
      CountPlus(results, outcome, (r: PutOutcome) => r.Created?);
      CountPlus(results, outcome, (r: PutOutcome) => r.Existing?);
      CountPlus(results, outcome, (r: PutOutcome) => Conflicted(r));
      match outcome {
        case IntegrityFailure => return Unavailable(i);
        case Created(_) => created := created + 1;
        case Existing(_) => existing := existing + 1;
        case ObservationConflict(_) => conflict := conflict + 1;
        case EvidenceConflict(_) => conflict := conflict + 1;
      }
      results := results + [outcome];
      now := LogAfter(now, items[i]);
    }
    AllWritten(log, items, now, results);
    result := Ingested(results, created, existing, conflict);
  }

  /* ----- What ingestion guarantees downstream ----- */

  // Every edge in the log obeys the ontology.
  ghost predicate EdgesValid(ont: Ontology, log: seq<Observation>) {
    forall o | o in log && o.relationship.Some? && o.obj.Some? ::
      ValidEdge(ont, o.relationship.value, o.subject.etype, o.obj.value.etype)
  }

  /** Only checked observations are stored, so no stored edge can fail the projector's ontology check. */
  lemma {:induction false} IngestedEdgesValid(ont: Ontology, who: Principal, log: seq<Observation>, items: seq<Observation>)
    requires EdgesValid(ont, log) && forall o | o in items :: Admitted(ont, who, o)
    ensures EdgesValid(ont, LogAfterAll(log, items))
    decreases |items|
  {
    hide OutcomeOf;
    if items != [] && OutcomeOf(log, items[0]) != IntegrityFailure {
      assert items[0] in items;
      forall o | o in items[1..]
        ensures o in items
      {
      }
      IngestedEdgesValid(ont, who, LogAfter(log, items[0]), items[1..]);
    }
  }
}
