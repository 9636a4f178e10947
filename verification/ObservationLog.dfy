/** What the log store does, as a function of the log alone: an observation is appended once, and a
    record once stored is never changed. */
module ObservationLog {
  import opened Domain
  import Pipeline

  datatype PutOutcome =
    | Created(seqNo: nat)
    | Existing(seqNo: nat)
    | ObservationConflict(id: string)
    | EvidenceConflict(id: string)
    | IntegrityFailure

  predicate SameKey(a: Observation, b: Observation) {
    a.tenant == b.tenant && a.id == b.id
  }

  // The position of the stored observation with o's key.
  function Find(log: seq<Observation>, o: Observation): (k: Option<nat>)
    ensures k.Some? ==> 1 <= k.value <= |log| && SameKey(log[k.value - 1], o)
    ensures k.None? ==> forall i | 0 <= i < |log| :: !SameKey(log[i], o)
  {
    if log == [] then None
    else if SameKey(log[|log| - 1], o) then Some(|log|)
    else Find(log[..|log| - 1], o)
  }

  ghost function TenantEvidence(log: seq<Observation>, tenant: string): set<EvidenceRef> {
    set o, e | o in log && o.tenant == tenant && e in o.evidence :: e
  }

  // The first of the evidence references that contradicts a known one or one before it.
  ghost function FirstConflict(known: set<EvidenceRef>, evs: seq<EvidenceRef>): Option<string>
    decreases |evs|
  {
    if evs == [] then None
    else if exists e :: e in known && e.id == evs[0].id && e != evs[0] then Some(evs[0].id)
    else FirstConflict(known + {evs[0]}, evs[1..])
  }

  // The observation names one evidence id twice, which its evidence rows cannot.
  ghost predicate RepeatsEvidence(o: Observation) {
    RepeatsId(o.evidence)
  }

  ghost predicate RepeatsId(evs: seq<EvidenceRef>) {
    exists i, j :: 0 <= i < j < |evs| && evs[i].id == evs[j].id
  }

  ghost function OutcomeOf(log: seq<Observation>, o: Observation): PutOutcome {
    match Find(log, o)
    case Some(k) => if log[k - 1] == o then Existing(k) else ObservationConflict(o.id)
    case None =>
      match FirstConflict(TenantEvidence(log, o.tenant), o.evidence)
      case Some(id) => EvidenceConflict(id)
      case None => if RepeatsEvidence(o) then IntegrityFailure else Created(|log| + 1)
  }

  ghost function LogAfter(log: seq<Observation>, o: Observation): seq<Observation> {
    if OutcomeOf(log, o).Created? then log + [o] else log
  }

  /* ----- What every stored log satisfies ----- */

  // Within a tenant, an evidence id stands for one evidence record.
  ghost predicate EvidenceAgrees(log: seq<Observation>) {
    forall o, p, e, f | o in log && p in log && e in o.evidence && f in p.evidence && o.tenant == p.tenant && e.id == f.id ::
      e == f
  }

  ghost predicate Sound(log: seq<Observation>) {
    && UniqueObservations(log)
    && EvidenceAgrees(log)
    && forall o | o in log :: !RepeatsEvidence(o)
  }

  // Evidence that contradicts neither known evidence nor itself.
  ghost predicate Compatible(known: set<EvidenceRef>, evs: seq<EvidenceRef>) {
    && (forall e, i | e in known && 0 <= i < |evs| && e.id == evs[i].id :: e == evs[i])
    && (forall i, j | 0 <= i < j < |evs| && evs[i].id == evs[j].id :: evs[i] == evs[j])
  }

  lemma CompatibleStep(known: set<EvidenceRef>, evs: seq<EvidenceRef>)
    requires evs != [] && forall e | e in known && e.id == evs[0].id :: e == evs[0]
    ensures Compatible(known, evs) <==> Compatible(known + {evs[0]}, evs[1..])
  {
    var first, rest := evs[0], evs[1..];
    assert forall i | 0 <= i < |rest| :: rest[i] == evs[i + 1];
    assert forall i | 0 < i < |evs| :: evs[i] == rest[i - 1];
    assert first in known + {first};
  }

  lemma {:induction false} NoConflictAgrees(known: set<EvidenceRef>, evs: seq<EvidenceRef>)
    ensures FirstConflict(known, evs).None? <==> Compatible(known, evs)
    decreases |evs|
  {
    if evs != [] {
      NoConflictAgrees(known + {evs[0]}, evs[1..]);
      if forall e | e in known && e.id == evs[0].id :: e == evs[0] {
        CompatibleStep(known, evs);
      }
    }
  }

  /** Storing keeps a log sound: observations stay unique and evidence stays consistent. */
  lemma PutSound(log: seq<Observation>, o: Observation)
    requires Sound(log)
    ensures Sound(LogAfter(log, o))
  {
    hide EvidenceAgrees, RepeatsEvidence, TenantEvidence, FirstConflict, UniqueObservations;
    if OutcomeOf(log, o).Created? {
      NoConflictAgrees(TenantEvidence(log, o.tenant), o.evidence);
      AgreesPlus(log, o);
      UniquePlus(log, o);
    }
  }

  lemma UniquePlus(log: seq<Observation>, o: Observation)
    requires UniqueObservations(log) && Find(log, o).None?
    ensures UniqueObservations(log + [o])
  {
  }

  lemma AgreesPlus(log: seq<Observation>, o: Observation)
    requires EvidenceAgrees(log)
    requires Compatible(TenantEvidence(log, o.tenant), o.evidence)
    ensures EvidenceAgrees(log + [o])
  {
    hide TenantEvidence;
    var log' := log + [o];
    forall a, p, e, f | a in log' && p in log' && e in a.evidence && f in p.evidence && a.tenant == p.tenant && e.id == f.id
      ensures e == f
    {
      AgreesWith(log, o, a, p, e, f);
    }
  }

  lemma AgreesWith(log: seq<Observation>, o: Observation, a: Observation, p: Observation, e: EvidenceRef, f: EvidenceRef)
    requires EvidenceAgrees(log) && a in log + [o] && p in log + [o] && e in a.evidence && f in p.evidence
    requires a.tenant == p.tenant && e.id == f.id
    requires Compatible(TenantEvidence(log, o.tenant), o.evidence)
    ensures e == f
  {
    if a !in log && p !in log {
      var i :| 0 <= i < |o.evidence| && o.evidence[i] == e;
      var j :| 0 <= j < |o.evidence| && o.evidence[j] == f;
    } else if a !in log {
      assert f in TenantEvidence(log, o.tenant);
      var i :| 0 <= i < |o.evidence| && o.evidence[i] == e;
    } else if p !in log {
      assert e in TenantEvidence(log, o.tenant);
      var j :| 0 <= j < |o.evidence| && o.evidence[j] == f;
    }
  }

  /* ----- Repeating a write ----- */

  lemma FindUnique(log: seq<Observation>, o: Observation, k: nat)
    requires UniqueObservations(log) && 1 <= k <= |log| && SameKey(log[k - 1], o)
    ensures Find(log, o) == Some(k)
  {
  }

  lemma MoreKnown(known: set<EvidenceRef>, known': set<EvidenceRef>, evs: seq<EvidenceRef>)
    requires known <= known' && FirstConflict(known, evs).Some?
    ensures FirstConflict(known', evs).Some?
  {
    NoConflictAgrees(known, evs);
    NoConflictAgrees(known', evs);
  }

  // A stored observation contradicts nothing stored.
  lemma StoredAgrees(log: seq<Observation>, o: Observation)
    requires Sound(log) && o in log
    ensures FirstConflict(TenantEvidence(log, o.tenant), o.evidence).None?
  {
    NoConflictAgrees(TenantEvidence(log, o.tenant), o.evidence);
  }

  // How an outcome reads when the same write is repeated.
  predicate Repeated(first: PutOutcome, again: PutOutcome) {
    match first
    case Created(k) => again == Existing(k)
    case Existing(k) => again == Existing(k)
    case ObservationConflict(id) => again == ObservationConflict(id)
    case EvidenceConflict(_) => again.ObservationConflict? || again.EvidenceConflict?
    case IntegrityFailure => again == IntegrityFailure
  }

  /** Repeating a write against any later log: what was stored is found where it was, and what
      conflicted still conflicts. */
  lemma RepeatedWrite(log: seq<Observation>, later: seq<Observation>, o: Observation)
    requires Sound(log) && Sound(later) && LogAfter(log, o) <= later
    ensures OutcomeOf(log, o) != IntegrityFailure ==> Repeated(OutcomeOf(log, o), OutcomeOf(later, o)) && LogAfter(later, o) == later
  {
    match OutcomeOf(log, o)
    case Created(k) => FindUnique(later, o, k);
    case Existing(k) => FindUnique(later, o, k);
    case ObservationConflict(_) => FindUnique(later, o, Find(log, o).value);
    case EvidenceConflict(_) =>
      assert TenantEvidence(log, o.tenant) <= TenantEvidence(later, o.tenant);
      MoreKnown(TenantEvidence(log, o.tenant), TenantEvidence(later, o.tenant), o.evidence);
      if Find(later, o).Some? && later[Find(later, o).value - 1] == o {
        StoredAgrees(later, o);
      }
    case IntegrityFailure =>
  }

  /** A write is one of the pipeline's ingest steps, or nothing. */
  lemma PutRefinesIngest(log: seq<Observation>, o: Observation)
    ensures LogAfter(log, o) == log || (LogAfter(log, o) == log + [o] && !Pipeline.AlreadyStored(log, o))
  {
  }

  /* ----- Batches ----- */

  // The outcomes of writing the items in order; a write that fails unexpectedly ends the batch.
  ghost function OutcomesOf(log: seq<Observation>, items: seq<Observation>): seq<PutOutcome>
    decreases |items|
  {
    if items == [] then []
    else
      var first := OutcomeOf(log, items[0]);
      [first] + (if first == IntegrityFailure then [] else OutcomesOf(LogAfter(log, items[0]), items[1..]))
  }

  ghost function LogAfterAll(log: seq<Observation>, items: seq<Observation>): seq<Observation>
    decreases |items|
  {
    if items == [] || OutcomeOf(log, items[0]) == IntegrityFailure then log
    else LogAfterAll(LogAfter(log, items[0]), items[1..])
  }

  lemma {:induction false} BatchExtends(log: seq<Observation>, items: seq<Observation>)
    requires Sound(log)
    ensures Sound(LogAfterAll(log, items)) && log <= LogAfterAll(log, items)
    decreases |items|
  {
    if items != [] && OutcomeOf(log, items[0]) != IntegrityFailure {
      PutSound(log, items[0]);
      BatchExtends(LogAfter(log, items[0]), items[1..]);
    }
  }

  // Each item of a repeated batch meets the log as the whole batch left it.
  lemma {:induction false} BatchAgain(log: seq<Observation>, items: seq<Observation>, later: seq<Observation>)
    requires Sound(log) && Sound(later) && later == LogAfterAll(log, items)
    ensures LogAfterAll(later, items) == later
    ensures |OutcomesOf(later, items)| == |OutcomesOf(log, items)|
    ensures |OutcomesOf(log, items)| <= |items|
    ensures forall i | 0 <= i < |OutcomesOf(log, items)| ::
      OutcomesOf(later, items)[i] == OutcomeOf(later, items[i]) && Repeated(OutcomesOf(log, items)[i], OutcomeOf(later, items[i]))
    decreases |items|
  {
    hide OutcomeOf, LogAfter, Sound, Repeated;
    if items != [] {
      if OutcomeOf(log, items[0]) == IntegrityFailure {
        assert Repeated(IntegrityFailure, IntegrityFailure) by { FailureRepeats(); }
      } else {
        PutSound(log, items[0]);
        BatchExtends(LogAfter(log, items[0]), items[1..]);
        RepeatedWrite(log, later, items[0]);
        NeverFails(log, later, items[0]);
        BatchAgain(LogAfter(log, items[0]), items[1..], later);
      }
    }
  }

  lemma FailureRepeats()
    ensures Repeated(IntegrityFailure, IntegrityFailure)
  {
  }

  lemma NeverFails(log: seq<Observation>, later: seq<Observation>, o: Observation)
    requires Repeated(OutcomeOf(log, o), OutcomeOf(later, o)) && OutcomeOf(log, o) != IntegrityFailure
    ensures OutcomeOf(later, o) != IntegrityFailure
  {
  }
}
