/** Sending a batch again: exactly what each item is answered the second time. */
module RepeatedBatches {
  import opened Domain
  import opened ObservationLog

  /* ----- Where a list of references first conflicts ----- */

  // Some of the references given contradicts the one at hand.
  ghost predicate Against(known: set<EvidenceRef>, e: EvidenceRef) {
    exists x :: x in known && x.id == e.id && x != e
  }

  ghost predicate AgainstEarlier(evs: seq<EvidenceRef>, p: nat)
    requires p < |evs|
  {
    exists q :: 0 <= q < p && evs[q].id == evs[p].id && evs[q] != evs[p]
  }

  ghost predicate Contradicted(known: set<EvidenceRef>, evs: seq<EvidenceRef>, p: nat)
    requires p < |evs|
  {
    Against(known, evs[p]) || AgainstEarlier(evs, p)
  }

  ghost predicate FirstAt(known: set<EvidenceRef>, evs: seq<EvidenceRef>, p: nat) {
    && p < |evs| && Contradicted(known, evs, p)
    && forall q: nat | q < p :: !Contradicted(known, evs, q)
  }

  lemma ContradictedShift(known: set<EvidenceRef>, evs: seq<EvidenceRef>, p: nat)
    requires 0 < p < |evs|
    ensures Contradicted(known, evs, p) <==> Contradicted(known + {evs[0]}, evs[1..], p - 1)
  {
    var rest := evs[1..];
    assert rest[p - 1] == evs[p];
    if AgainstEarlier(evs, p) {
      var q :| 0 <= q < p && evs[q].id == evs[p].id && evs[q] != evs[p];
      if q > 0 {
        assert rest[q - 1] == evs[q];
      } else {
        assert evs[0] in known + {evs[0]};
      }
    }
    if Against(known, evs[p]) {
      var x :| x in known && x.id == evs[p].id && x != evs[p];
      assert x in known + {evs[0]};
    }
    if AgainstEarlier(rest, p - 1) {
      var q :| 0 <= q < p - 1 && rest[q].id == rest[p - 1].id && rest[q] != rest[p - 1];
      assert evs[q + 1] == rest[q];
    }
  }

  /** The conflict reported is that of the first contradicted reference. */
  lemma {:induction false} ConflictIsFirst(known: set<EvidenceRef>, evs: seq<EvidenceRef>, p: nat)
    requires FirstAt(known, evs, p)
    ensures FirstConflict(known, evs) == Some(evs[p].id)
    decreases |evs|
  {
    if p > 0 {
      assert !Contradicted(known, evs, 0);
      ContradictedShift(known, evs, p);
      forall q: nat | q < p - 1
        ensures !Contradicted(known + {evs[0]}, evs[1..], q)
      {
        ContradictedShift(known, evs, q + 1);
      }
      ConflictIsFirst(known + {evs[0]}, evs[1..], p - 1);
      assert evs[1..][p - 1] == evs[p];
    }
  }

  lemma {:induction false} FirstExists(known: set<EvidenceRef>, evs: seq<EvidenceRef>, n: nat) returns (p: nat)
    requires n < |evs| && Contradicted(known, evs, n)
    ensures FirstAt(known, evs, p) && p <= n
    decreases n
  {
    hide Contradicted;
    if q: nat :| q < n && Contradicted(known, evs, q) {
      p := FirstExists(known, evs, q);
    } else {
      p := n;
    }
  }

  lemma {:induction false} ConflictExists(known: set<EvidenceRef>, evs: seq<EvidenceRef>) returns (p: nat)
    requires FirstConflict(known, evs).Some?
    ensures FirstAt(known, evs, p)
    decreases |evs|
  {
    if Contradicted(known, evs, 0) {
      p := FirstExists(known, evs, 0);
    } else {
      var r := ConflictExists(known + {evs[0]}, evs[1..]);
      ContradictedShift(known, evs, r + 1);
      p := FirstExists(known, evs, r + 1);
    }
  }

  lemma FirstUnique(known: set<EvidenceRef>, evs: seq<EvidenceRef>, p: nat, q: nat)
    requires FirstAt(known, evs, p) && FirstAt(known, evs, q)
    ensures p == q
  {
    hide Contradicted;
  }

  /* ----- What a batch adds ----- */

  // The log as the i-th item finds it.
  ghost function LogAt(log: seq<Observation>, items: seq<Observation>, i: nat): seq<Observation>
    requires i < |items|
    decreases i
  {
    if i == 0 then log else LogAt(LogAfter(log, items[0]), items[1..], i - 1)
  }

  ghost predicate CreatedAt(log: seq<Observation>, items: seq<Observation>, j: nat) {
    j < |OutcomesOf(log, items)| && OutcomesOf(log, items)[j].Created?
  }

  lemma {:induction false} OutcomesBounded(log: seq<Observation>, items: seq<Observation>)
    ensures |OutcomesOf(log, items)| <= |items|
    decreases |items|
  {
    hide OutcomeOf, LogAfter;
    if items != [] && OutcomeOf(log, items[0]) != IntegrityFailure {
      OutcomesBounded(LogAfter(log, items[0]), items[1..]);
    }
  }

  // The rest of a batch from its i-th item on.
  lemma {:induction false} FromItem(log: seq<Observation>, items: seq<Observation>, i: nat)
    requires i < |OutcomesOf(log, items)| && i < |items|
    ensures OutcomesOf(LogAt(log, items, i), items[i..]) == OutcomesOf(log, items)[i..]
    ensures LogAfterAll(LogAt(log, items, i), items[i..]) == LogAfterAll(log, items)
    ensures OutcomesOf(log, items)[i] == OutcomeOf(LogAt(log, items, i), items[i])
    ensures Sound(log) ==> Sound(LogAt(log, items, i))
    decreases i
  {
    hide OutcomeOf, LogAfter, Sound;
    if i == 0 {
      assert items[0..] == items && OutcomesOf(log, items)[0..] == OutcomesOf(log, items);
    } else {
      if Sound(log) {
        PutSound(log, items[0]);
      }
      FromItem(LogAfter(log, items[0]), items[1..], i - 1);
      assert items[1..][i - 1..] == items[i..];
      assert OutcomesOf(log, items)[1..] == OutcomesOf(LogAfter(log, items[0]), items[1..]);
      assert OutcomesOf(log, items)[1..][i - 1..] == OutcomesOf(log, items)[i..];
    }
  }

  /** A batch adds to the log exactly the items it created. */
  lemma {:induction false} AddedByBatch(log: seq<Observation>, items: seq<Observation>, o: Observation)
    ensures o in LogAfterAll(log, items) <==> o in log || exists j: nat :: CreatedAt(log, items, j) && j < |items| && items[j] == o
    decreases |items|
  {
    hide OutcomeOf;
    if items != [] && OutcomeOf(log, items[0]) != IntegrityFailure {
      var next, rest := LogAfter(log, items[0]), items[1..];
      AddedByBatch(next, rest, o);
      assert OutcomesOf(log, items)[1..] == OutcomesOf(next, rest);
      if CreatedAt(log, items, 0) && items[0] == o {
        assert o in next;
      }
      if j: nat :| CreatedAt(next, rest, j) && j < |rest| && rest[j] == o {
        assert CreatedAt(log, items, j + 1) && items[j + 1] == o;
      }
      if j: nat :| CreatedAt(log, items, j) && j < |items| && items[j] == o && j > 0 {
        assert CreatedAt(next, rest, j - 1) && rest[j - 1] == o;
      }
      if o in next && o !in log {
        assert CreatedAt(log, items, 0);
      }
    }
  }

  /* ----- The second answer ----- */

  // A later item of the batch was stored under the i-th item's key.
  ghost predicate Superseded(log: seq<Observation>, items: seq<Observation>, i: nat)
    requires i < |items|
  {
    exists j: nat :: i < j < |items| && CreatedAt(log, items, j) && SameKey(items[j], items[i])
  }

  // The evidence that later created items of the batch brought to the i-th item's tenant.
  ghost function Brought(log: seq<Observation>, items: seq<Observation>, i: nat): set<EvidenceRef>
    requires i < |items|
  {
    set j: nat, e | i < j < |items| && CreatedAt(log, items, j) && items[j].tenant == items[i].tenant && e in items[j].evidence :: e
  }

  // What the i-th item is answered when the whole batch is sent again.
  ghost predicate AnsweredAgain(log: seq<Observation>, items: seq<Observation>, i: nat, again: PutOutcome)
    requires i < |items| && i < |OutcomesOf(log, items)|
  {
    var o := items[i];
    match OutcomesOf(log, items)[i]
    case Created(k) => again == Existing(k)
    case Existing(k) => again == Existing(k)
    case ObservationConflict(id) => again == ObservationConflict(id)
    case IntegrityFailure => again == IntegrityFailure
    case EvidenceConflict(_) =>
      if Superseded(log, items, i) then again == ObservationConflict(o.id)
      else
        var known := TenantEvidence(LogAt(log, items, i), o.tenant) + Brought(log, items, i);
        again.EvidenceConflict? && FirstConflict(known, o.evidence) == Some(again.id)
  }

  lemma FindMember(log: seq<Observation>, o: Observation)
    ensures Find(log, o).Some? <==> exists x :: x in log && SameKey(x, o)
  {
    if x :| x in log && SameKey(x, o) {
      var i :| 0 <= i < |log| && log[i] == x;
    }
    if Find(log, o).Some? {
      assert log[Find(log, o).value - 1] in log;
    }
  }

  // What the whole batch adds, seen from the i-th item, which itself was not created.
  lemma AddedAfter(log: seq<Observation>, items: seq<Observation>, i: nat, x: Observation)
    requires i < |items| && i < |OutcomesOf(log, items)| && !CreatedAt(log, items, i)
    ensures x in LogAfterAll(log, items) <==>
      x in LogAt(log, items, i) || exists j: nat :: i < j < |items| && CreatedAt(log, items, j) && items[j] == x
  {
    hide OutcomesOf, LogAfterAll, LogAt;
    FromItem(log, items, i);
    var at, rest := LogAt(log, items, i), items[i..];
    AddedByBatch(at, rest, x);
    assert OutcomesOf(at, rest) == OutcomesOf(log, items)[i..];
    if j: nat :| CreatedAt(at, rest, j) && j < |rest| && rest[j] == x {
      assert CreatedAt(log, items, i + j) && items[i + j] == x;
      assert i + j != i;
    }
    if j: nat :| i < j < |items| && CreatedAt(log, items, j) && items[j] == x {
      assert CreatedAt(at, rest, j - i) && rest[j - i] == x;
    }
  }

  lemma SupersededIsFound(log: seq<Observation>, items: seq<Observation>, i: nat)
    requires i < |items| && i < |OutcomesOf(log, items)| && !CreatedAt(log, items, i)
    requires Find(LogAt(log, items, i), items[i]).None?
    ensures Find(LogAfterAll(log, items), items[i]).Some? <==> Superseded(log, items, i)
  {
    hide OutcomesOf, LogAfterAll, LogAt, CreatedAt;
    var later, o := LogAfterAll(log, items), items[i];
    FindMember(later, o);
    FindMember(LogAt(log, items, i), o);
    if x :| x in later && SameKey(x, o) {
      AddedAfter(log, items, i, x);
    }
    if j: nat :| i < j < |items| && CreatedAt(log, items, j) && SameKey(items[j], o) {
      AddedAfter(log, items, i, items[j]);
    }
  }

  lemma EvidenceAfter(log: seq<Observation>, items: seq<Observation>, i: nat)
    requires i < |items| && i < |OutcomesOf(log, items)| && !CreatedAt(log, items, i)
    ensures TenantEvidence(LogAfterAll(log, items), items[i].tenant)
         == TenantEvidence(LogAt(log, items, i), items[i].tenant) + Brought(log, items, i)
  {
    hide OutcomesOf, LogAfterAll, LogAt, CreatedAt;
    var later, at, tenant := LogAfterAll(log, items), LogAt(log, items, i), items[i].tenant;
    forall e | e in TenantEvidence(later, tenant)
      ensures e in TenantEvidence(at, tenant) + Brought(log, items, i)
    {
      var x :| x in later && x.tenant == tenant && e in x.evidence;
      AddedAfter(log, items, i, x);
    }
    forall e | e in TenantEvidence(at, tenant) + Brought(log, items, i)
      ensures e in TenantEvidence(later, tenant)
    {
      if e in TenantEvidence(at, tenant) {
        var x :| x in at && x.tenant == tenant && e in x.evidence;
        AddedAfter(log, items, i, x);
      } else {
        var j: nat :| i < j < |items| && CreatedAt(log, items, j) && items[j].tenant == tenant && e in items[j].evidence;
        AddedAfter(log, items, i, items[j]);
      }
    }
  }

  lemma SecondAnswer(log: seq<Observation>, items: seq<Observation>, i: nat)
    requires Sound(log) && i < |items| && i < |OutcomesOf(log, items)|
    requires Repeated(OutcomesOf(log, items)[i], OutcomeOf(LogAfterAll(log, items), items[i]))
    ensures AnsweredAgain(log, items, i, OutcomeOf(LogAfterAll(log, items), items[i]))
  {
    hide OutcomesOf, LogAfterAll, LogAt, Superseded, Brought, TenantEvidence, FirstConflict, Sound;
    if OutcomesOf(log, items)[i].EvidenceConflict? {
      FromItem(log, items, i);
      SupersededIsFound(log, items, i);
      EvidenceAfter(log, items, i);
    }
  }

  /** Sending a whole batch again changes nothing, and each item's second answer is determined: what was
      created or existing is existing at the same position, a conflict with a stored observation is the
      same conflict, and a failure fails at the same item. An evidence conflict becomes a conflict with
      the observation a later item stored under its key, if one did, and is otherwise the first conflict
      with what was known to it then or brought by later created items. */
  lemma BatchIdempotent(log: seq<Observation>, items: seq<Observation>)
    requires Sound(log)
    ensures var later := LogAfterAll(log, items);
      && LogAfterAll(later, items) == later
      && |OutcomesOf(later, items)| == |OutcomesOf(log, items)| <= |items|
      && forall i | 0 <= i < |OutcomesOf(log, items)| :: AnsweredAgain(log, items, i, OutcomesOf(later, items)[i])
  {
    hide OutcomesOf, LogAfterAll, Sound, AnsweredAgain, Repeated, OutcomeOf;
    var later := LogAfterAll(log, items);
    BatchExtends(log, items);
    BatchAgain(log, items, later);
    forall i | 0 <= i < |OutcomesOf(log, items)|
      ensures AnsweredAgain(log, items, i, OutcomesOf(later, items)[i])
    {
      SecondAnswer(log, items, i);
    }
  }

  /* ----- When the conflict keeps its record ----- */

  // The first reference that `brought` contradicts comes before the one the conflict was about, and is
  // about another record.
  ghost predicate Preempted(known: set<EvidenceRef>, brought: set<EvidenceRef>, evs: seq<EvidenceRef>) {
    exists p: nat, q: nat ::
      && FirstAt(known, evs, p) && q < p && evs[q].id != evs[p].id
      && Against(brought, evs[q]) && forall r | 0 <= r < q :: !Against(brought, evs[r])
  }

  lemma AgainstUnion(known: set<EvidenceRef>, brought: set<EvidenceRef>, e: EvidenceRef)
    ensures Against(known + brought, e) <==> Against(known, e) || Against(brought, e)
  {
    if x :| x in brought && x.id == e.id && x != e {
      assert x in known + brought;
    }
    if x :| x in known && x.id == e.id && x != e {
      assert x in known + brought;
    }
  }

  lemma SameRecord(known: set<EvidenceRef>, brought: set<EvidenceRef>, evs: seq<EvidenceRef>)
    requires FirstConflict(known, evs).Some?
    ensures FirstConflict(known + brought, evs) == FirstConflict(known, evs) <==> !Preempted(known, brought, evs)
  {
    hide Against, AgainstEarlier, FirstConflict;
    var p := ConflictExists(known, evs);
    ConflictIsFirst(known, evs, p);
    forall n: nat | n < |evs|
      ensures Contradicted(known + brought, evs, n) <==> Contradicted(known, evs, n) || Against(brought, evs[n])
    {
      AgainstUnion(known, brought, evs[n]);
    }
    var q := FirstExists(known + brought, evs, p);
    ConflictIsFirst(known + brought, evs, q);
    hide Contradicted;
    if q < p && evs[q].id != evs[p].id {
      assert Preempted(known, brought, evs) by {
        assert !Contradicted(known, evs, q);
        assert Against(brought, evs[q]);
        forall r: nat | r < q
          ensures !Against(brought, evs[r])
        {
          assert !Contradicted(known + brought, evs, r);
        }
      }
    }
    if Preempted(known, brought, evs) {
      var p': nat, q': nat :| FirstAt(known, evs, p') && q' < p' && evs[q'].id != evs[p'].id
        && Against(brought, evs[q']) && forall r | 0 <= r < q' :: !Against(brought, evs[r]);
      FirstUnique(known, evs, p, p');
      assert Contradicted(known + brought, evs, q');
      assert q <= q';
      assert Against(brought, evs[q]) by {
        assert !Contradicted(known, evs, q);
      }
      assert q == q';
    }
  }

  /** Exactly when an evidence conflict names the same record again: no later item was stored under its
      key, and the first of its references that later created items contradict, if that comes before
      the conflicting one, is about the same record. */
  lemma RecordKept(log: seq<Observation>, items: seq<Observation>, i: nat)
    requires Sound(log) && i < |items| && i < |OutcomesOf(log, items)| && OutcomesOf(log, items)[i].EvidenceConflict?
    ensures i < |OutcomesOf(LogAfterAll(log, items), items)|
    ensures OutcomesOf(LogAfterAll(log, items), items)[i] == OutcomesOf(log, items)[i] <==>
      && !Superseded(log, items, i)
      && !Preempted(TenantEvidence(LogAt(log, items, i), items[i].tenant), Brought(log, items, i), items[i].evidence)
  {
    hide OutcomesOf, LogAfterAll, LogAt, Superseded, Brought, TenantEvidence, FirstConflict, Sound, Preempted;
    BatchIdempotent(log, items);
    FromItem(log, items, i);
    SameRecord(TenantEvidence(LogAt(log, items, i), items[i].tenant), Brought(log, items, i), items[i].evidence);
    var again := OutcomesOf(LogAfterAll(log, items), items)[i];
    assert AnsweredAgain(log, items, i, again);
  }

  /* ----- The two ways to lose the record, and one that looks like it ----- */

  function Sighting(id: string, subject: EntityRef, evidence: seq<EvidenceRef>): Observation {
    Observation(id, "tenant", "sensor", 0, NetworkActivity, "connection", 1.0, subject, None, None, evidence, false, None, "")
  }

  lemma TwoItems(log: seq<Observation>, b: Observation, c: Observation, id: string)
    requires OutcomeOf(log, b) == EvidenceConflict(id) && OutcomeOf(log, c) == Created(|log| + 1)
    ensures OutcomesOf(log, [b, c]) == [EvidenceConflict(id), Created(|log| + 1)] && LogAfterAll(log, [b, c]) == log + [c]
    ensures LogAt(log, [b, c], 0) == log
  {
    hide OutcomeOf;
    assert [b, c][1..] == [c] && [c][1..] == [];
    assert LogAfter(log, b) == log && LogAfter(log, c) == log + [c];
    assert LogAfterAll(log + [c], []) == log + [c];
    assert LogAfterAll(log, [c]) == log + [c];
    assert OutcomesOf(log, [c]) == [Created(|log| + 1)] + OutcomesOf(log + [c], []);
  }

  lemma Accepts(log: seq<Observation>, c: Observation)
    requires Find(log, c).None? && Compatible(TenantEvidence(log, c.tenant), c.evidence) && !RepeatsEvidence(c)
    ensures OutcomeOf(log, c) == Created(|log| + 1)
  {
    NoConflictAgrees(TenantEvidence(log, c.tenant), c.evidence);
  }

  lemma Clashes(log: seq<Observation>, o: Observation, p: nat)
    requires Find(log, o).None? && FirstAt(TenantEvidence(log, o.tenant), o.evidence, p)
    ensures OutcomeOf(log, o) == EvidenceConflict(o.evidence[p].id)
  {
    ConflictIsFirst(TenantEvidence(log, o.tenant), o.evidence, p);
  }

  lemma OnlyOne(a: Observation)
    ensures TenantEvidence([a], a.tenant) == set e | e in a.evidence
    ensures forall o :: Find([a], o) == if SameKey(a, o) then Some(1) else None
  {
    assert a in [a] && [a][..0] == [];
  }

  // After b clashed with a, c was stored beside a.
  lemma BothOf(a: Observation, c: Observation, b: Observation)
    requires a.tenant == c.tenant == b.tenant
    ensures TenantEvidence([a] + [c], a.tenant) == (set e | e in a.evidence) + (set e | e in c.evidence)
    ensures Find([a] + [c], b) == if SameKey(c, b) then Some(2) else if SameKey(a, b) then Some(1) else None
  {
    OnlyOne(a);
    var log := [a] + [c];
    assert a in log && c in log && log[..1] == [a];
    assert forall x :: x in log <==> x == a || x == c;
  }

  /** First way: the clash was over evidence, and a later item of the batch was stored under the key. */
  lemma LaterItemTakesTheKey(s: EntityRef)
    ensures var a := Sighting("a", s, [EvidenceRef("e", "1")]);
      var b := Sighting("b", s, [EvidenceRef("e", "2")]);
      var c := Sighting("b", s, [EvidenceRef("f", "1")]);
      OutcomesOf([a], [b, c]) == [EvidenceConflict("e"), Created(2)] && OutcomeOf(LogAfterAll([a], [b, c]), b) == ObservationConflict("b")
  {
    hide TenantEvidence, Find, OutcomesOf, LogAfterAll, FirstConflict;
    var a := Sighting("a", s, [EvidenceRef("e", "1")]);
    var b := Sighting("b", s, [EvidenceRef("e", "2")]);
    var c := Sighting("b", s, [EvidenceRef("f", "1")]);
    OnlyOne(a);
    BothOf(a, c, b);
    assert a.evidence[0] in a.evidence;
    Clashes([a], b, 0);
    Accepts([a], c);
    TwoItems([a], b, c, "e");
    assert b.evidence[0].id != c.evidence[0].id;
  }

  /** Second way: a later item brought evidence that an earlier reference of the list contradicts. */
  lemma LaterItemContradictsEarlier(s: EntityRef)
    ensures var a := Sighting("a", s, [EvidenceRef("e", "1")]);
      var b := Sighting("b", s, [EvidenceRef("f", "1"), EvidenceRef("e", "2")]);
      var c := Sighting("c", s, [EvidenceRef("f", "2")]);
      OutcomesOf([a], [b, c]) == [EvidenceConflict("e"), Created(2)] && OutcomeOf(LogAfterAll([a], [b, c]), b) == EvidenceConflict("f")
  {
    hide TenantEvidence, Find, OutcomesOf, LogAfterAll, FirstConflict, OutcomeOf;
    var a := Sighting("a", s, [EvidenceRef("e", "1")]);
    var b := Sighting("b", s, [EvidenceRef("f", "1"), EvidenceRef("e", "2")]);
    var c := Sighting("c", s, [EvidenceRef("f", "2")]);
    OnlyOne(a);
    BothOf(a, c, b);
    assert a.evidence[0] in a.evidence && c.evidence[0] in c.evidence;
    assert !Contradicted(TenantEvidence([a], "tenant"), b.evidence, 0);
    Clashes([a], b, 1);
    Accepts([a], c);
    TwoItems([a], b, c, "e");
    Clashes([a] + [c], b, 0);
  }

  /** Not a way: the earlier reference that a later item contradicts is about the same record, and the
      answer does not change. */
  lemma SameRecordContradicted(s: EntityRef)
    ensures var b := Sighting("b", s, [EvidenceRef("e", "1"), EvidenceRef("e", "2")]);
      var c := Sighting("c", s, [EvidenceRef("e", "3")]);
      && OutcomesOf([], [b, c]) == [EvidenceConflict("e"), Created(1)]
      && FirstAt({}, b.evidence, 1) && Against(Brought([], [b, c], 0), b.evidence[0])
      && OutcomeOf(LogAfterAll([], [b, c]), b) == EvidenceConflict("e")
  {
    hide Find, OutcomesOf, LogAfterAll, FirstConflict, OutcomeOf;
    var b := Sighting("b", s, [EvidenceRef("e", "1"), EvidenceRef("e", "2")]);
    var c := Sighting("c", s, [EvidenceRef("e", "3")]);
    assert TenantEvidence([], "tenant") == {};
    NothingFound(b);
    NothingFound(c);
    assert AgainstEarlier(b.evidence, 1) by { assert b.evidence[0].id == b.evidence[1].id && b.evidence[0] != b.evidence[1]; }
    assert !Contradicted({}, b.evidence, 0);
    Clashes([], b, 1);
    Accepts([], c);
    TwoItems([], b, c, "e");
    assert [] + [c] == [c];
    assert CreatedAt([], [b, c], 1) && [b, c][1] == c && c.evidence[0] in c.evidence;
    assert c.evidence[0] in Brought([], [b, c], 0);
    OnlyOne(c);
    Clashes([c], b, 0);
  }

  lemma NothingFound(o: Observation)
    ensures Find([], o).None?
  {
  }
}
