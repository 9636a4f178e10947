/** The append-only log store: immutable observation and evidence records, their links, and a gap-free
    ingest sequence. */
module LogStore {
  import opened Domain
  import opened CorrelationHistory
  import opened ObservationLog
  import opened CorrelationProjection

  datatype RecordKey = RecordKey(tenant: string, id: string)

  // The entry table is keyed by its unique (tenant, observation) constraint; positions are its values.
  datatype Rows = Rows(
    evidence: map<RecordKey, EvidenceRef>,
    observations: map<RecordKey, Observation>,
    links: set<EvidenceLink>,
    entries: map<RecordKey, nat>,
    last: nat
  )

  const EMPTY_ROWS := Rows(map[], map[], {}, map[], 0)

  function KeyOf(o: Observation): RecordKey {
    RecordKey(o.tenant, o.id)
  }

  // How one attempt to write ends; the last is the store finding itself inconsistent.
  datatype Attempted = Settled(outcome: PutOutcome) | MissingEntry

  datatype EvidenceWrite = Written(rows: map<RecordKey, EvidenceRef>) | Clash(id: string)

  // The evidence loop: the table after writing the references in order, or the first clash.
  function WriteEvidence(rows: map<RecordKey, EvidenceRef>, tenant: string, evs: seq<EvidenceRef>): EvidenceWrite {
    if evs == [] then Written(rows)
    else match WriteEvidence(rows, tenant, evs[..|evs| - 1])
      case Clash(id) => Clash(id)
      case Written(m) =>
        var e := evs[|evs| - 1];
        if RecordKey(tenant, e.id) !in m then Written(m[RecordKey(tenant, e.id) := e])
        else if m[RecordKey(tenant, e.id)] != e then Clash(e.id)
        else Written(m)
  }

  // _ensure_evidence_matches: the first reference whose stored record is missing or different.
  function Mismatch(rows: map<RecordKey, EvidenceRef>, tenant: string, evs: seq<EvidenceRef>): Option<string> {
    if evs == [] then None
    else match Mismatch(rows, tenant, evs[..|evs| - 1])
      case Some(id) => Some(id)
      case None =>
        var e := evs[|evs| - 1];
        if RecordKey(tenant, e.id) !in rows || rows[RecordKey(tenant, e.id)] != e then Some(e.id) else None
  }

  // The link rows of an observation; None when one violates the table's key.
  function WriteLinks(links: set<EvidenceLink>, o: Observation, evs: seq<EvidenceRef>): Option<set<EvidenceLink>> {
    if evs == [] then Some(links)
    else match WriteLinks(links, o, evs[..|evs| - 1])
      case None => None
      case Some(ls) =>
        var l := EvidenceLink(o.tenant, o.id, evs[|evs| - 1].id);
        if l in ls then None else Some(ls + {l})
  }

  // _put_with_session on arbitrary tables: the outcome, and the tables when it returns normally.
  function WriteRows(s: Rows, o: Observation): (Attempted, Rows) {
    var key := KeyOf(o);
    if key in s.observations then
      if s.observations[key] != o then (Settled(ObservationConflict(o.id)), s)
      else match Mismatch(s.evidence, o.tenant, o.evidence)
        case Some(id) => (Settled(EvidenceConflict(id)), s)
        case None => if key in s.entries then (Settled(Existing(s.entries[key])), s) else (MissingEntry, s)
    else match WriteEvidence(s.evidence, o.tenant, o.evidence)
      case Clash(id) => (Settled(EvidenceConflict(id)), s)
      case Written(evidence) =>
        match WriteLinks(s.links, o, o.evidence)
        case None => (Settled(IntegrityFailure), s)
        case Some(links) =>
          if key in s.entries || s.last + 1 in s.entries.Values then (Settled(IntegrityFailure), s)
          else (Settled(Created(s.last + 1)),
                Rows(evidence, s.observations[key := o], links, s.entries[key := s.last + 1], s.last + 1))
  }

  predicate Committed(a: Attempted) {
    a.Settled? && (a.outcome.Created? || a.outcome.Existing?)
  }

  class Store {
    var evidence: map<RecordKey, EvidenceRef>
    var observations: map<RecordKey, Observation>
    var links: set<EvidenceLink>
    var entries: map<RecordKey, nat>
    var last: nat

    function Snapshot(): Rows
      reads this
    {
      Rows(evidence, observations, links, entries, last)
    }

    constructor ()
      ensures Snapshot() == EMPTY_ROWS
    {
      evidence, observations, links, entries, last := map[], map[], {}, map[], 0;
    }

    // ObservationSequenceAllocator.allocate
    method Allocate() returns (sequence: nat)
      modifies this`last
      ensures last == old(last) + 1 && sequence == last
    {
      last := last + 1;
      sequence := last;
    }

    method WriteAllEvidence(o: Observation) returns (clash: Option<string>)
      modifies this`evidence
      ensures match WriteEvidence(old(evidence), o.tenant, o.evidence)
              case Clash(id) => clash == Some(id)
              case Written(rows) => clash == None && evidence == rows
    {
      var evs := o.evidence;
      var i := 0;
      while i < |evs|
        invariant 0 <= i <= |evs|
        invariant WriteEvidence(old(evidence), o.tenant, evs[..i]) == Written(evidence)
      {
        var e := evs[i];
        assert evs[..i + 1][..i] == evs[..i];
        var key := RecordKey(o.tenant, e.id);
        if key in evidence {
          if evidence[key] != e {
            ClashPersists(old(evidence), o.tenant, evs, i + 1);
            return Some(e.id);
          }
        } else {
          evidence := evidence[key := e];
        }
        i := i + 1;
      }
      assert evs[..i] == evs;
      clash := None;
    }

    method EnsureEvidenceMatches(o: Observation) returns (mismatch: Option<string>)
      ensures mismatch == Mismatch(evidence, o.tenant, o.evidence)
    {
      var evs := o.evidence;
      var i := 0;
      while i < |evs|
        invariant 0 <= i <= |evs| && Mismatch(evidence, o.tenant, evs[..i]).None?
      {
        var e := evs[i];
        assert evs[..i + 1][..i] == evs[..i];
        var key := RecordKey(o.tenant, e.id);
        if key !in evidence || evidence[key] != e {
          MismatchPersists(evidence, o.tenant, evs, i + 1);
          return Some(e.id);
        }
        i := i + 1;
      }
      assert evs[..i] == evs;
      mismatch := None;
    }

    method WriteAllLinks(o: Observation) returns (ok: bool)
      modifies this`links
      ensures match WriteLinks(old(links), o, o.evidence)
              case None => !ok
              case Some(ls) => ok && links == ls
    {
      var evs := o.evidence;
      var i := 0;
      while i < |evs|
        invariant 0 <= i <= |evs| && WriteLinks(old(links), o, evs[..i]) == Some(links)
      {
        assert evs[..i + 1][..i] == evs[..i];
        var l := EvidenceLink(o.tenant, o.id, evs[i].id);
        if l in links {
          DuplicatePersists(old(links), o, evs, i + 1);
          return false;
        }
        links := links + {l};
        i := i + 1;
      }
      assert evs[..i] == evs;
      ok := true;
    }

    // _put_with_session; on anything but a normal return the transaction has yet to be rolled back.
    method Attempt(o: Observation) returns (a: Attempted)
      modifies this
      ensures a == WriteRows(old(Snapshot()), o).0
      ensures Committed(a) ==> Snapshot() == WriteRows(old(Snapshot()), o).1
    {
      var key := KeyOf(o);
      if key in observations {
        if observations[key] != o {
          return Settled(ObservationConflict(o.id));
        }
        var mismatch := EnsureEvidenceMatches(o);
        if mismatch.Some? {
          return Settled(EvidenceConflict(mismatch.value));
        }
        if key !in entries {
          return MissingEntry;
        }
        return Settled(Existing(entries[key]));
      }
      var clash := WriteAllEvidence(o);
      if clash.Some? {
        return Settled(EvidenceConflict(clash.value));
      }
      observations := observations[key := o];
      var linked := WriteAllLinks(o);
      if !linked {
        return Settled(IntegrityFailure);
      }
      var sequence := Allocate();
      if key in entries || sequence in entries.Values {
        return Settled(IntegrityFailure);
      }
      entries := entries[key := sequence];
      a := Settled(Created(sequence));
    }

    method Rollback(s: Rows)
      modifies this
      ensures Snapshot() == s
    {
      evidence, observations, links, entries, last := s.evidence, s.observations, s.links, s.entries, s.last;
    }

    /** put_with_result: commit, or roll back; an integrity error is retried once. */
    method Put(o: Observation) returns (a: Attempted)
      modifies this
      ensures a == WriteRows(old(Snapshot()), o).0
      ensures Snapshot() == if Committed(a) then WriteRows(old(Snapshot()), o).1 else old(Snapshot())
    {
      var before := Snapshot();
      var retried := false;
      while true
        invariant Snapshot() == before
        decreases !retried
      {
        a := Attempt(o);
        if Committed(a) {
          return;
        }
        Rollback(before);
        if a != Settled(IntegrityFailure) || retried {
          return;
        }
        retried := true;
      }
    }
  }

  lemma {:induction false} ClashPersists(rows: map<RecordKey, EvidenceRef>, tenant: string, evs: seq<EvidenceRef>, i: nat)
    requires i <= |evs| && WriteEvidence(rows, tenant, evs[..i]).Clash?
    ensures WriteEvidence(rows, tenant, evs) == WriteEvidence(rows, tenant, evs[..i])
    decreases |evs|
  {
    if i == |evs| {
      assert evs[..i] == evs;
    } else {
      assert evs[..|evs| - 1][..i] == evs[..i];
      ClashPersists(rows, tenant, evs[..|evs| - 1], i);
    }
  }

  lemma {:induction false} MismatchPersists(rows: map<RecordKey, EvidenceRef>, tenant: string, evs: seq<EvidenceRef>, i: nat)
    requires i <= |evs| && Mismatch(rows, tenant, evs[..i]).Some?
    ensures Mismatch(rows, tenant, evs) == Mismatch(rows, tenant, evs[..i])
    decreases |evs|
  {
    if i == |evs| {
      assert evs[..i] == evs;
    } else {
      assert evs[..|evs| - 1][..i] == evs[..i];
      MismatchPersists(rows, tenant, evs[..|evs| - 1], i);
    }
  }

  lemma {:induction false} DuplicatePersists(links: set<EvidenceLink>, o: Observation, evs: seq<EvidenceRef>, i: nat)
    requires i <= |evs| && WriteLinks(links, o, evs[..i]).None?
    ensures WriteLinks(links, o, evs).None?
    decreases |evs|
  {
    if i == |evs| {
      assert evs[..i] == evs;
    } else {
      assert evs[..|evs| - 1][..i] == evs[..i];
      DuplicatePersists(links, o, evs[..|evs| - 1], i);
    }
  }

  /* ----- What the tables hold ----- */

  // The evidence rows of a tenant are the known references, under their ids.
  ghost predicate EvidenceHolds(rows: map<RecordKey, EvidenceRef>, tenant: string, known: set<EvidenceRef>) {
    && (forall e | e in known :: RecordKey(tenant, e.id) in rows && rows[RecordKey(tenant, e.id)] == e)
    && (forall id | RecordKey(tenant, id) in rows :: rows[RecordKey(tenant, id)] in known && rows[RecordKey(tenant, id)].id == id)
  }

  // The entries are 1..last, in bijection with the observations, in log order.
  ghost predicate EntriesHold(s: Rows, log: seq<Observation>) {
    && s.last == |log|
    && s.entries.Keys == s.observations.Keys
    && (forall i | 0 <= i < |log| :: KeyOf(log[i]) in s.entries && s.entries[KeyOf(log[i])] == i + 1)
    && (forall key | key in s.entries :: 1 <= s.entries[key] <= |log| && KeyOf(log[s.entries[key] - 1]) == key)
  }

  /** The tables hold exactly the log: every entry from 1 to the last sequence, each observation and
      its evidence unchanged, and nothing else. */
  ghost predicate Represents(s: Rows, log: seq<Observation>) {
    && Sound(log)
    && EntriesHold(s, log)
    && (forall o | o in log :: KeyOf(o) in s.observations && s.observations[KeyOf(o)] == o)
    && (forall tenant: string :: EvidenceHolds(s.evidence, tenant, TenantEvidence(log, tenant)))
    && s.links == EvidenceLinks(log)
  }

  lemma EmptyRepresents()
    ensures Represents(EMPTY_ROWS, [])
  {
    forall tenant: string
      ensures EvidenceHolds(map[], tenant, TenantEvidence([], tenant))
    {
      assert TenantEvidence([], tenant) == {};
    }
  }

  ghost function RefSet(evs: seq<EvidenceRef>): set<EvidenceRef> {
    set e | e in evs
  }

  /** The evidence loop fails exactly at the first conflict, and otherwise adds what is new. */
  lemma {:induction false} EvidenceWritten(rows: map<RecordKey, EvidenceRef>, tenant: string, known: set<EvidenceRef>,
                                           evs: seq<EvidenceRef>)
    requires EvidenceHolds(rows, tenant, known)
    ensures match WriteEvidence(rows, tenant, evs)
            case Clash(id) => FirstConflict(known, evs) == Some(id)
            case Written(m) =>
              && FirstConflict(known, evs).None?
              && EvidenceHolds(m, tenant, known + RefSet(evs))
              && forall key: RecordKey | key.tenant != tenant :: (key in m <==> key in rows) && (key in m ==> m[key] == rows[key])
  {
    if evs == [] {
      assert known + RefSet(evs) == known;
    } else {
      var init, e := evs[..|evs| - 1], evs[|evs| - 1];
      EvidenceWritten(rows, tenant, known, init);
      ConflictStep(known, evs);
      RefSetPlus(evs);
      match WriteEvidence(rows, tenant, init)
      case Clash(_) =>
      case Written(m) => OneWritten(m, tenant, known + RefSet(init), e);
    }
  }

  lemma OneWritten(m: map<RecordKey, EvidenceRef>, tenant: string, known: set<EvidenceRef>, e: EvidenceRef)
    requires EvidenceHolds(m, tenant, known)
    ensures RecordKey(tenant, e.id) !in m ==> EvidenceHolds(m[RecordKey(tenant, e.id) := e], tenant, known + {e})
    ensures RecordKey(tenant, e.id) in m && m[RecordKey(tenant, e.id)] == e ==> EvidenceHolds(m, tenant, known + {e})
    ensures (RecordKey(tenant, e.id) in m && m[RecordKey(tenant, e.id)] != e) <==> exists x :: x in known && x.id == e.id && x != e
  {
  }

  lemma RefSetPlus(evs: seq<EvidenceRef>)
    requires evs != []
    ensures RefSet(evs) == RefSet(evs[..|evs| - 1]) + {evs[|evs| - 1]}
  {
    assert evs == evs[..|evs| - 1] + [evs[|evs| - 1]];
  }

  // The first conflict read from the end of the list.
  lemma {:induction false} ConflictStep(known: set<EvidenceRef>, evs: seq<EvidenceRef>)
    requires evs != []
    ensures FirstConflict(known, evs) ==
      (var init, e := evs[..|evs| - 1], evs[|evs| - 1];
       if FirstConflict(known, init).Some? then FirstConflict(known, init)
       else if exists x :: x in known + RefSet(init) && x.id == e.id && x != e then Some(e.id) else None)
    decreases |evs|
  {
    hide RefSet;
    var init := evs[..|evs| - 1];
    if |evs| == 1 {
      NoRefs(init);
      assert known + RefSet(init) == known;
    } else {
      ConflictStep(known + {evs[0]}, evs[1..]);
      assert evs[1..][..|evs| - 2] == init[1..];
      FirstRef(init);
      assert known + {evs[0]} + RefSet(init[1..]) == known + RefSet(init);
    }
  }

  lemma NoRefs(evs: seq<EvidenceRef>)
    requires evs == []
    ensures RefSet(evs) == {}
  {
  }

  lemma FirstRef(evs: seq<EvidenceRef>)
    requires evs != []
    ensures RefSet(evs) == {evs[0]} + RefSet(evs[1..])
  {
    assert evs == [evs[0]] + evs[1..];
  }

  lemma RepeatsStep(evs: seq<EvidenceRef>)
    requires evs != []
    ensures RepeatsId(evs) <==> RepeatsId(evs[..|evs| - 1]) || exists x :: x in evs[..|evs| - 1] && x.id == evs[|evs| - 1].id
  {
    var init, e := evs[..|evs| - 1], evs[|evs| - 1];
    if RepeatsId(evs) {
      var i, j :| 0 <= i < j < |evs| && evs[i].id == evs[j].id;
      assert init[i] in init;
      if j < |init| {
        assert init[j].id == init[i].id;
      }
    }
    if x :| x in init && x.id == e.id {
      var i :| 0 <= i < |init| && init[i] == x;
      assert evs[i].id == evs[|evs| - 1].id;
    }
    if RepeatsId(init) {
      var i, j :| 0 <= i < j < |init| && init[i].id == init[j].id;
      assert evs[i].id == evs[j].id;
    }
  }

  ghost function LinksOf(o: Observation, evs: seq<EvidenceRef>): set<EvidenceLink> {
    set e | e in evs :: EvidenceLink(o.tenant, o.id, e.id)
  }

  /** The links are written exactly when no evidence id repeats. */
  lemma {:induction false} LinksWritten(links: set<EvidenceLink>, o: Observation, evs: seq<EvidenceRef>)
    requires forall x :: EvidenceLink(o.tenant, o.id, x) !in links
    ensures match WriteLinks(links, o, evs)
            case None => RepeatsId(evs)
            case Some(ls) => !RepeatsId(evs) && ls == links + LinksOf(o, evs)
  {
    if evs != [] {
      var init, e := evs[..|evs| - 1], evs[|evs| - 1];
      assert evs == init + [e];
      LinksWritten(links, o, init);
      RepeatsStep(evs);
    }
  }

  /* ----- The store refines the log ----- */

  lemma StoredKeys(s: Rows, log: seq<Observation>, o: Observation)
    requires Represents(s, log)
    ensures KeyOf(o) in s.observations <==> Find(log, o).Some?
    ensures Find(log, o).Some? ==>
      s.observations[KeyOf(o)] == log[Find(log, o).value - 1] && s.entries[KeyOf(o)] == Find(log, o).value
  {
    hide EvidenceHolds, Sound, EvidenceLinks;
    if Find(log, o).Some? {
      assert log[Find(log, o).value - 1] in log;
    }
  }

  lemma {:induction false} NoMismatch(rows: map<RecordKey, EvidenceRef>, tenant: string, known: set<EvidenceRef>, evs: seq<EvidenceRef>)
    requires EvidenceHolds(rows, tenant, known) && RefSet(evs) <= known
    ensures Mismatch(rows, tenant, evs).None?
  {
    if evs != [] {
      RefSetPlus(evs);
      NoMismatch(rows, tenant, known, evs[..|evs| - 1]);
      assert evs[|evs| - 1] in RefSet(evs);
    }
  }

  lemma NoLinksYet(log: seq<Observation>, o: Observation)
    requires Find(log, o).None?
    ensures forall x :: EvidenceLink(o.tenant, o.id, x) !in EvidenceLinks(log)
  {
    forall l | l in EvidenceLinks(log)
      ensures l.tenant != o.tenant || l.obsId != o.id
    {
      var p :| p in log && p.tenant == l.tenant && p.id == l.obsId;
      assert !SameKey(p, o);
    }
  }

  lemma LinksPlus(log: seq<Observation>, o: Observation)
    ensures EvidenceLinks(log + [o]) == EvidenceLinks(log) + LinksOf(o, o.evidence)
  {
    forall l | l in EvidenceLinks(log) + LinksOf(o, o.evidence)
      ensures l in EvidenceLinks(log + [o])
    {
      if l in EvidenceLinks(log) {
        var p, x :| p in log && x in EvidenceIds(p) && l == EvidenceLink(p.tenant, p.id, x);
        assert p in log + [o];
      } else {
        assert o in log + [o];
      }
    }
  }

  lemma EvidencePlus(log: seq<Observation>, o: Observation, tenant: string)
    ensures TenantEvidence(log + [o], tenant)
         == (if o.tenant == tenant then TenantEvidence(log, tenant) + RefSet(o.evidence) else TenantEvidence(log, tenant))
  {
    forall e | e in TenantEvidence(log, tenant) + (if o.tenant == tenant then RefSet(o.evidence) else {})
      ensures e in TenantEvidence(log + [o], tenant)
    {
      if e in TenantEvidence(log, tenant) {
        var p :| p in log && p.tenant == tenant && e in p.evidence;
        assert p in log + [o];
      } else {
        assert o in log + [o];
      }
    }
  }

  lemma EntriesPlus(s: Rows, s': Rows, log: seq<Observation>, log': seq<Observation>, o: Observation)
    requires EntriesHold(s, log) && KeyOf(o) !in s.entries && log' == log + [o]
    requires s'.last == s.last + 1 && s'.entries == s.entries[KeyOf(o) := s.last + 1]
    requires s'.observations.Keys == s.observations.Keys + {KeyOf(o)}
    ensures EntriesHold(s', log')
  {
    forall i | 0 <= i < |log'|
      ensures KeyOf(log'[i]) in s'.entries && s'.entries[KeyOf(log'[i])] == i + 1
    {
      if i < |log| {
        assert KeyOf(log'[i]) == KeyOf(log[i]);
      } else {
        assert KeyOf(log'[i]) == KeyOf(o);
      }
    }
    forall key | key in s'.entries
      ensures 1 <= s'.entries[key] <= |log'| && KeyOf(log'[s'.entries[key] - 1]) == key
    {
      if key != KeyOf(o) {
        assert KeyOf(log'[s.entries[key] - 1]) == KeyOf(log[s.entries[key] - 1]);
      }
    }
  }

  lemma EvidenceTablePlus(rows: map<RecordKey, EvidenceRef>, rows': map<RecordKey, EvidenceRef>, log: seq<Observation>,
                          o: Observation, tenant: string)
    requires forall t: string :: EvidenceHolds(rows, t, TenantEvidence(log, t))
    requires WriteEvidence(rows, o.tenant, o.evidence) == Written(rows')
    ensures EvidenceHolds(rows', tenant, TenantEvidence(log + [o], tenant))
  {
    hide EvidenceHolds, TenantEvidence, WriteEvidence;
    EvidencePlus(log, o, tenant);
    EvidenceWritten(rows, o.tenant, TenantEvidence(log, o.tenant), o.evidence);
    if tenant != o.tenant {
      OtherTenantHolds(rows, rows', tenant, o.tenant, TenantEvidence(log, tenant));
    }
  }

  lemma ObservationsPlus(rows: map<RecordKey, Observation>, log: seq<Observation>, o: Observation)
    requires forall p | p in log :: KeyOf(p) in rows && rows[KeyOf(p)] == p
    requires KeyOf(o) !in rows
    ensures forall p | p in log + [o] :: KeyOf(p) in rows[KeyOf(o) := o] && rows[KeyOf(o) := o][KeyOf(p)] == p
  {
  }

  lemma CreatedRepresents(s: Rows, log: seq<Observation>, o: Observation)
    requires Represents(s, log) && OutcomeOf(log, o).Created? && WriteRows(s, o).0 == Settled(Created(|log| + 1))
    requires KeyOf(o) !in s.observations
    ensures Represents(WriteRows(s, o).1, log + [o])
  {
    hide EvidenceHolds, TenantEvidence, Sound, EvidenceLinks, EntriesHold, WriteEvidence, WriteLinks, OutcomeOf, EvidenceIds;
    var s' := WriteRows(s, o).1;
    PutSound(log, o);
    assert LogAfter(log, o) == log + [o];
    NotEntered(s, log, o);
    EntriesPlus(s, s', log, log + [o], o);
    forall tenant: string
      ensures EvidenceHolds(s'.evidence, tenant, TenantEvidence(log + [o], tenant))
    {
      EvidenceTablePlus(s.evidence, s'.evidence, log, o, tenant);
    }
    ObservationsPlus(s.observations, log, o);
    NoLinks(s, log, o);
    LinksWritten(s.links, o, o.evidence);
    LinksPlus(log, o);
  }

  lemma NotEntered(s: Rows, log: seq<Observation>, o: Observation)
    requires EntriesHold(s, log) && KeyOf(o) !in s.observations
    ensures KeyOf(o) !in s.entries && s.last + 1 !in s.entries.Values && s.last == |log|
  {
  }

  lemma NoLinks(s: Rows, log: seq<Observation>, o: Observation)
    requires Represents(s, log) && KeyOf(o) !in s.observations
    ensures forall x :: EvidenceLink(o.tenant, o.id, x) !in s.links
  {
    hide EvidenceHolds, EvidenceLinks;
    StoredKeys(s, log, o);
    NoLinksYet(log, o);
  }

  lemma OtherTenantHolds(rows: map<RecordKey, EvidenceRef>, rows': map<RecordKey, EvidenceRef>, tenant: string, changed: string,
                         known: set<EvidenceRef>)
    requires EvidenceHolds(rows, tenant, known) && tenant != changed
    requires forall key: RecordKey | key.tenant != changed :: (key in rows' <==> key in rows) && (key in rows' ==> rows'[key] == rows[key])
    ensures EvidenceHolds(rows', tenant, known)
  {
  }

  /** On tables that hold a log, a write does exactly what the log says: the outcome is the log's, a
      created observation is appended at the next position, and the store never finds itself
      inconsistent. */
  lemma WriteRefines(s: Rows, log: seq<Observation>, o: Observation)
    requires Represents(s, log)
    ensures WriteRows(s, o).0 == Settled(OutcomeOf(log, o))
    ensures Represents(if Committed(WriteRows(s, o).0) then WriteRows(s, o).1 else s, LogAfter(log, o))
  {
    hide EvidenceHolds, TenantEvidence, Sound, EvidenceLinks, EntriesHold, WriteEvidence, WriteLinks, FirstConflict, Mismatch;
    StoredKeys(s, log, o);
    if KeyOf(o) in s.observations {
      if s.observations[KeyOf(o)] == o {
        StoredEvidence(log, o);
        NoMismatch(s.evidence, o.tenant, TenantEvidence(log, o.tenant), o.evidence);
        Entered(s, log, o);
      }
    } else {
      NotEntered(s, log, o);
      EvidenceWritten(s.evidence, o.tenant, TenantEvidence(log, o.tenant), o.evidence);
      NoLinks(s, log, o);
      LinksWritten(s.links, o, o.evidence);
      if OutcomeOf(log, o).Created? {
        CreatedRepresents(s, log, o);
      }
    }
  }

  lemma Entered(s: Rows, log: seq<Observation>, o: Observation)
    requires EntriesHold(s, log) && KeyOf(o) in s.observations
    ensures KeyOf(o) in s.entries
  {
  }

  lemma StoredEvidence(log: seq<Observation>, o: Observation)
    requires Find(log, o).Some? && log[Find(log, o).value - 1] == o
    ensures RefSet(o.evidence) <= TenantEvidence(log, o.tenant)
  {
    assert o in log;
  }

  /** The tables and the log determine each other. */
  lemma OneLog(s: Rows, log: seq<Observation>, log': seq<Observation>)
    requires Represents(s, log) && Represents(s, log')
    ensures log == log'
  {
    hide EvidenceHolds, EvidenceLinks, Sound, EntriesHold;
    KeysHold(s, log);
    KeysHold(s, log');
    forall i | 0 <= i < |log|
      ensures log[i] == log'[i]
    {
      PositionEntry(s, log, i);
      EntryPosition(s, log', KeyOf(log[i]));
      assert log[i] in log && log'[i] in log';
    }
  }

  lemma OneStore(s: Rows, s': Rows, log: seq<Observation>)
    requires Represents(s, log) && Represents(s', log)
    ensures s == s'
  {
    hide EvidenceLinks, Sound, TenantEvidence, EvidenceHolds, EntriesHold;
    OneEntries(s, s', log);
    OneObservations(s, s', log);
    forall key: RecordKey
      ensures key in s.evidence <==> key in s'.evidence
      ensures key in s.evidence ==> s.evidence[key] == s'.evidence[key]
    {
      OneEvidence(s.evidence, s'.evidence, key.tenant, TenantEvidence(log, key.tenant), key.id);
    }
    assert s.evidence == s'.evidence;
  }

  lemma OneEntries(s: Rows, s': Rows, log: seq<Observation>)
    requires EntriesHold(s, log) && EntriesHold(s', log)
    ensures s.entries == s'.entries && s.last == s'.last && s.observations.Keys == s'.observations.Keys
  {
    KeysHold(s, log);
    KeysHold(s', log);
    hide EntriesHold;
    forall key: RecordKey
      ensures key in s.entries ==> key in s'.entries && s.entries[key] == s'.entries[key]
      ensures key in s'.entries ==> key in s.entries
    {
      if key in s.entries {
        EntryCarried(s, s', log, key);
      }
      if key in s'.entries {
        EntryCarried(s', s, log, key);
      }
    }
    assert s.entries == s'.entries;
  }

  lemma EntryCarried(s: Rows, s': Rows, log: seq<Observation>, key: RecordKey)
    requires EntriesHold(s, log) && EntriesHold(s', log) && key in s.entries
    ensures key in s'.entries && s'.entries[key] == s.entries[key]
  {
    hide EntriesHold;
    EntryPosition(s, log, key);
    PositionEntry(s', log, s.entries[key] - 1);
  }

  lemma KeysHold(s: Rows, log: seq<Observation>)
    requires EntriesHold(s, log)
    ensures s.last == |log| && s.entries.Keys == s.observations.Keys
  {
  }

  lemma EntryPosition(s: Rows, log: seq<Observation>, key: RecordKey)
    requires EntriesHold(s, log) && key in s.entries
    ensures 1 <= s.entries[key] <= |log| && KeyOf(log[s.entries[key] - 1]) == key
  {
  }

  lemma PositionEntry(s: Rows, log: seq<Observation>, i: nat)
    requires EntriesHold(s, log) && i < |log|
    ensures KeyOf(log[i]) in s.entries && s.entries[KeyOf(log[i])] == i + 1
  {
  }

  lemma OneObservations(s: Rows, s': Rows, log: seq<Observation>)
    requires EntriesHold(s, log) && s.observations.Keys == s'.observations.Keys
    requires forall o | o in log :: KeyOf(o) in s.observations && s.observations[KeyOf(o)] == o
    requires forall o | o in log :: KeyOf(o) in s'.observations && s'.observations[KeyOf(o)] == o
    ensures s.observations == s'.observations
  {
    hide EntriesHold, KeyOf;
    forall key | key in s.observations
      ensures s'.observations[key] == s.observations[key]
    {
      var o := KeyHolder(s, log, key);
    }
  }

  lemma KeyHolder(s: Rows, log: seq<Observation>, key: RecordKey) returns (o: Observation)
    requires EntriesHold(s, log) && key in s.observations
    ensures o in log && KeyOf(o) == key
  {
    o := log[s.entries[key] - 1];
  }

  lemma OneEvidence(rows: map<RecordKey, EvidenceRef>, rows': map<RecordKey, EvidenceRef>, tenant: string, known: set<EvidenceRef>,
                    id: string)
    requires EvidenceHolds(rows, tenant, known) && EvidenceHolds(rows', tenant, known)
    ensures var key := RecordKey(tenant, id);
      (key in rows <==> key in rows') && (key in rows ==> rows[key] == rows'[key])
  {
    var key := RecordKey(tenant, id);
    if key in rows {
      assert rows[key] in known && RecordKey(tenant, rows[key].id) == key;
    }
    if key in rows' {
      assert rows'[key] in known && RecordKey(tenant, rows'[key].id) == key;
    }
  }
}
