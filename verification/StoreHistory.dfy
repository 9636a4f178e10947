/** The log store over whole histories of writes, and inputs on which its promises break. */
module StoreHistory {
  import opened Domain
  import opened CorrelationRules
  import opened ObservationLog
  import opened LogStore
  import opened ObservationListing
  import opened RepeatedBatches
  import opened Pipeline
  import opened Guarantees

  // The tables after a history of writes, each committed or rolled back.
  function Written(items: seq<Observation>): Rows {
    if items == [] then EMPTY_ROWS
    else
      var s := Written(items[..|items| - 1]);
      var (a, s') := WriteRows(s, items[|items| - 1]);
      if Committed(a) then s' else s
  }

  // The log it leaves.
  ghost function Logged(items: seq<Observation>): seq<Observation> {
    if items == [] then [] else LogAfter(Logged(items[..|items| - 1]), items[|items| - 1])
  }

  /** After any history of writes the tables hold exactly the log: entries from 1 to the last sequence in
      bijection with the observations, each observation and its evidence unchanged. */
  lemma {:induction false} AlwaysRepresents(items: seq<Observation>)
    ensures Represents(Written(items), Logged(items))
  {
    hide Represents, WriteRows, LogAfter;
    if items == [] {
      EmptyRepresents();
    } else {
      var init, o := items[..|items| - 1], items[|items| - 1];
      AlwaysRepresents(init);
      WriteRefines(Written(init), Logged(init), o);
    }
  }

  // The ingest steps a history of writes amounts to.
  ghost function Ingests(items: seq<Observation>): seq<Step> {
    if items == [] then []
    else
      var init, o := items[..|items| - 1], items[|items| - 1];
      Ingests(init) + (if OutcomeOf(Logged(init), o).Created? then [Ingest(o)] else [])
  }

  /** Every log the store can hold is the log of a run of the whole system, so what holds after every run
      holds over it. */
  lemma {:induction false} LogsAreReachable(cfg: Config, items: seq<Observation>)
    ensures After(cfg, Ingests(items)).log == Logged(items)
  {
    hide OutcomeOf, After;
    if items == [] {
      AfterNothing(cfg);
    } else {
      var init, o := items[..|items| - 1], items[|items| - 1];
      LogsAreReachable(cfg, init);
      PutRefinesIngest(Logged(init), o);
      if OutcomeOf(Logged(init), o).Created? {
        AfterOne(cfg, Ingests(init), Ingest(o));
        assert |LogAfter(Logged(init), o)| == |Logged(init)| + 1;
      } else {
        assert Ingests(init) + [] == Ingests(init);
      }
    }
  }

  /* ----- Inputs on which the store or its listing fails ----- */

  /** A write fails for good exactly when it is new, contradicts nothing and repeats an evidence id: the
      link table's key is then violated on both attempts. */
  lemma FailsIffRepeated(items: seq<Observation>, o: Observation)
    ensures WriteRows(Written(items), o).0 == Settled(IntegrityFailure) <==>
      Find(Logged(items), o).None? && FirstConflict(TenantEvidence(Logged(items), o.tenant), o.evidence).None? && RepeatsEvidence(o)
  {
    hide Represents, WriteRows, FirstConflict, RepeatsEvidence;
    AlwaysRepresents(items);
    WriteRefines(Written(items), Logged(items), o);
  }

  /** Such an input: one evidence record named twice, sent to an empty store. */
  lemma RepeatedIdFails(s: EntityRef)
    ensures var o := Sighting("obs-1", s, [EvidenceRef("ev-1", "content"), EvidenceRef("ev-1", "content")]);
      WriteRows(EMPTY_ROWS, o).0 == Settled(IntegrityFailure)
  {
    hide WriteRows;
    var o := Sighting("obs-1", s, [EvidenceRef("ev-1", "content"), EvidenceRef("ev-1", "content")]);
    FailsIffRepeated([], o);
    assert TenantEvidence([], "tenant") == {};
    NoConflictAgrees({}, o.evidence);
    assert o.evidence[0].id == o.evidence[1].id;
  }

  lemma RowsAreKeyed(s: Rows, log: seq<Observation>)
    requires Represents(s, log)
    ensures Keyed(s.observations)
  {
    hide EvidenceHolds, Sound;
    forall key | key in s.observations
      ensures KeyOf(s.observations[key]) == key
    {
      EntryPosition(s, log, key);
      assert log[s.entries[key] - 1] in log;
    }
  }

  lemma ListedFromLog(s: Rows, log: seq<Observation>, tenant: string, source: string, filter: Observation -> bool)
    requires Represents(s, log)
    ensures Matching(s.observations, tenant, source, filter) == set o | o in log && o.tenant == tenant && o.source == source && filter(o) :: PageKey(o.eventTime, o.id)
  {
    hide EvidenceHolds, Sound;
    forall key | key in s.observations
      ensures s.observations[key] in log
    {
      EntryPosition(s, log, key);
      assert log[s.entries[key] - 1] in log;
    }
    forall o | o in log
      ensures KeyOf(o) in s.observations && s.observations[KeyOf(o)] == o
    {
    }
  }

  const UNNAMED := PageKey(5, "")
  const NAMED := PageKey(3, "obs-1")

  // The two observations of the walk below.
  function At(key: PageKey, s: EntityRef, evidenceId: string): Observation {
    Sighting(key.id, s, [EvidenceRef(evidenceId, "content")]).(eventTime := key.eventTime)
  }

  lemma TwoListed(rows: Rows, s: EntityRef)
    requires Represents(rows, [At(UNNAMED, s, "ev-1"), At(NAMED, s, "ev-2")])
    ensures Keyed(rows.observations)
    ensures Matching(rows.observations, "tenant", "sensor", o => true) == {UNNAMED, NAMED}
  {
    hide Represents;
    var log := [At(UNNAMED, s, "ev-1"), At(NAMED, s, "ev-2")];
    RowsAreKeyed(rows, log);
    ListedFromLog(rows, log, "tenant", "sensor", o => true);
    assert log[0] in log && log[1] in log;
    assert PageKeyOf(log[0]) == UNNAMED && PageKeyOf(log[1]) == NAMED;
  }

  lemma BothCreated(s: EntityRef)
    ensures Logged([At(UNNAMED, s, "ev-1"), At(NAMED, s, "ev-2")]) == [At(UNNAMED, s, "ev-1"), At(NAMED, s, "ev-2")]
  {
    hide OutcomeOf, TenantEvidence, Find;
    var a, b := At(UNNAMED, s, "ev-1"), At(NAMED, s, "ev-2");
    NothingFound(a);
    assert TenantEvidence([], "tenant") == {} by { NoEvidence("tenant"); }
    Accepts([], a);
    OnlyOne(a);
    assert a.evidence[0].id != b.evidence[0].id by { assert "ev-1"[3] != "ev-2"[3]; }
    Accepts([a], b);
    assert [a, b][..1] == [a] && [a][..0] == [];
    assert [] + [a] == [a] && [a] + [b] == [a, b];
    assert Logged([a]) == [a];
  }

  lemma NoEvidence(tenant: string)
    ensures TenantEvidence([], tenant) == {}
  {
  }

  /** Following the anchors fails on a store of two observations, one with an empty id that ends the first
      page of one. */
  method EmptyIdStopsWalk(s: EntityRef) returns (ok: bool)
    ensures !ok
  {
    hide Represents, WriteRows, Keyed, Matching, Precedes;
    var a, b := At(UNNAMED, s, "ev-1"), At(NAMED, s, "ev-2");
    assert [a, b][..1] == [a] && [a][..0] == [];
    assert Written([]) == EMPTY_ROWS;
    var store := new Store();
    var first := store.Put(a);
    assert store.Snapshot() == Written([a]);
    var second := store.Put(b);
    assert store.Snapshot() == Written([a, b]);
    AlwaysRepresents([a, b]);
    BothCreated(s);
    TwoListed(store.Snapshot(), s);
    ghost var all := [UNNAMED, NAMED];
    assert Precedes(UNNAMED, NAMED) by { NewestFirst(); }
    var visited;
    ok, visited := Walk(store.observations, "tenant", "sensor", 1, o => true, all);
    assert !BoundariesNamed(all, 1) by {
      assert all[1 - 1].id == "" && 1 % 1 == 0;
    }
  }

  lemma NewestFirst()
    ensures Precedes(UNNAMED, NAMED)
  {
  }
}
