/** The relationship projector: relationships stated directly by observations. */
module RelationshipProjection {
  import opened Domain
  import opened Spans
  import opened RelationshipGraph

  const OBJECT_REQUIRED := "relationship_object_required"
  const ONTOLOGY_FAILED := "relationship_ontology_validation_failed"

  function ObservedEntry(item: Item): Entry
    requires ObservedId(item.obs).Some?
  {
    Entry(ObservedId(item.obs).value, item.seqNo, item.obs, item.obs.subject.etype, item.obs.obj.value.etype,
          item.obs.confidence, EvidenceIds(item.obs))
  }

  function Step(ont: Ontology, g: Graph, item: Item): Attempt<Graph> {
    var o := item.obs;
    if o.relationship.None? then Done(g)
    else if o.obj.None? then Poison(OBJECT_REQUIRED)
    else if !ValidEdge(ont, o.relationship.value, o.subject.etype, o.obj.value.etype) then Poison(ONTOLOGY_FAILED)
    else match Record(g, ObservedEntry(item))
      case None => Aborted
      case Some(g') => Done(g')
  }

  method Handle(ont: Ontology, store: GraphStore, item: Item) returns (verdict: Verdict)
    modifies store
    ensures match Step(ont, old(store.Snapshot()), item)
            case Done(_) => verdict == Handled
            case Poison(code) => verdict == Rejected(code)
            case Aborted => verdict == Raised
    ensures store.Snapshot() ==
            if verdict.Handled? then Step(ont, old(store.Snapshot()), item).state else old(store.Snapshot())
  {
    var o := item.obs;
    if o.relationship.None? {
      return Handled;
    }
    if o.obj.None? {
      return Rejected(OBJECT_REQUIRED);
    }
    if !ValidEdge(ont, o.relationship.value, o.subject.etype, o.obj.value.etype) {
      return Rejected(ONTOLOGY_FAILED);
    }
    var ok := store.RecordEntry(ObservedEntry(item));
    verdict := if ok then Handled else Raised;
  }

  /* ----- Any order, any repetition ----- */

  // What the items state, as entries.
  ghost function ObservedEntries(items: set<Item>): set<Entry> {
    set it | it in items && ObservedId(it.obs).Some? :: ObservedEntry(it)
  }

  // (tenant, observation id) names one item, as the ingest log guarantees.
  ghost predicate Distinct(items: set<Item>) {
    forall a, b | a in items && b in items && a.obs.tenant == b.obs.tenant && a.obs.id == b.obs.id :: a == b
  }

  // Running the handler over items in the given order from an empty graph.
  function Project(ont: Ontology, items: seq<Item>): Attempt<Graph> {
    if items == [] then Done(EMPTY_GRAPH)
    else match Project(ont, items[..|items| - 1])
      case Done(g) => Step(ont, g, items[|items| - 1])
      case other => other
  }

  ghost predicate Acceptable(ont: Ontology, items: set<Item>) {
    && (forall it | it in items && it.obs.relationship.Some? ::
          it.obs.obj.Some?
          && ValidEdge(ont, it.obs.relationship.value, it.obs.subject.etype, it.obs.obj.value.etype))
    && (forall a, b | a in items && b in items && ObservedId(a.obs).Some? && ObservedId(a.obs) == ObservedId(b.obs) ::
          a.obs.subject.etype == b.obs.subject.etype && a.obs.obj.value.etype == b.obs.obj.value.etype)
  }

  lemma ObservedIdentified(items: set<Item>)
    requires Distinct(items)
    ensures Identified(ObservedEntries(items))
  {
  }

  lemma ObservedEntriesPlus(items: set<Item>, it: Item)
    ensures ObservedEntries(items + {it}) ==
            ObservedEntries(items) + (if ObservedId(it.obs).Some? then {ObservedEntry(it)} else {})
  {
    if ObservedId(it.obs).Some? {
      assert it in items + {it};
      forall e | e in ObservedEntries(items)
        ensures e in ObservedEntries(items + {it})
      {
        var x :| x in items && ObservedId(x.obs).Some? && ObservedEntry(x) == e;
        assert x in items + {it};
      }
    } else {
      forall e | e in ObservedEntries(items)
        ensures e in ObservedEntries(items + {it})
      {
        var x :| x in items && ObservedId(x.obs).Some? && ObservedEntry(x) == e;
        assert x in items + {it};
      }
    }
  }

  /** One step keeps the tables an exact aggregate, and only the three aggregate tables move. */
  lemma StepExact(ont: Ontology, g: Graph, es: set<Entry>, item: Item)
    requires TablesExact(g, es) && Step(ont, g, item).Done?
    requires ObservedId(item.obs).Some? ==> Identified(es + {ObservedEntry(item)})
    ensures TablesExact(Step(ont, g, item).state,
              es + (if ObservedId(item.obs).Some? then {ObservedEntry(item)} else {}))
  {
    hide TablesExact, Identified, Record;
    if ObservedId(item.obs).Some? {
      RecordExact(g, es, ObservedEntry(item));
    } else {
      assert es + {} == es;
    }
  }

  lemma EmptyExact()
    ensures TablesExact(EMPTY_GRAPH, {})
  {
  }

  lemma ItemSetSnoc(items: seq<Item>)
    requires items != []
    ensures ItemSet(items) == ItemSet(items[..|items| - 1]) + {items[|items| - 1]}
  {
    assert items == items[..|items| - 1] + [items[|items| - 1]];
  }

  lemma {:induction false} ProjectExact(ont: Ontology, items: seq<Item>)
    requires Distinct(ItemSet(items)) && Project(ont, items).Done?
    ensures TablesExact(Project(ont, items).state, ObservedEntries(ItemSet(items)))
  {
    if items == [] {
      EmptyExact();
      assert ObservedEntries(ItemSet(items)) == {};
    } else {
      var init, it := items[..|items| - 1], items[|items| - 1];
      ItemSetSnoc(items);
      ProjectExact(ont, init);
      ObservedEntriesPlus(ItemSet(init), it);
      ObservedIdentified(ItemSet(items));
      StepExact(ont, Project(ont, init).state, ObservedEntries(ItemSet(init)), it);
    }
  }

  /** The projector accepts a sequence of items exactly when each edge obeys the ontology and no
      two items type the endpoints of one relationship differently: whether it fails does not
      depend on order or repetition either. */
  lemma {:induction false} ProjectSucceeds(ont: Ontology, items: seq<Item>)
    requires Distinct(ItemSet(items))
    ensures Project(ont, items).Done? <==> Acceptable(ont, ItemSet(items))
  {
    if items != [] {
      var init, it := items[..|items| - 1], items[|items| - 1];
      ItemSetSnoc(items);
      ProjectSucceeds(ont, init);
      if Project(ont, init).Done? {
        ProjectExact(ont, init);
        LastStepSucceeds(ont, Project(ont, init).state, ItemSet(init), it);
      }
    }
  }

  lemma LastStepSucceeds(ont: Ontology, g: Graph, items: set<Item>, it: Item)
    requires TablesExact(g, ObservedEntries(items)) && Acceptable(ont, items)
    ensures Step(ont, g, it).Done? <==> Acceptable(ont, items + {it})
  {
    hide LineageExact, EvidenceExact;
    var o, es := it.obs, ObservedEntries(items);
    if o.relationship.Some? {
      assert it in items + {it};
      if o.obj.Some? && ValidEdge(ont, o.relationship.value, o.subject.etype, o.obj.value.etype) {
        var e := ObservedEntry(it);
        if e.rid in g.relationships {
          assert RowExact(g.relationships[e.rid], EntriesOf(es, e.rid));
          var d :| d in EntriesOf(es, e.rid) && d.confidence == g.relationships[e.rid].confidence;
          var x :| x in items && ObservedId(x.obs).Some? && ObservedEntry(x) == d;
          assert x in items + {it};
          SameTypesAsRow(ont, g.relationships[e.rid], items, it, x);
        } else {
          NoOtherStatement(ont, g, items, it);
        }
      }
    }
  }

  lemma SameTypesAsRow(ont: Ontology, row: RelationshipRow, items: set<Item>, it: Item, x: Item)
    requires Acceptable(ont, items)
    requires ObservedId(it.obs).Some?
    requires ValidEdge(ont, it.obs.relationship.value, it.obs.subject.etype, it.obs.obj.value.etype)
    requires x in items && ObservedId(x.obs) == ObservedId(it.obs)
    requires SameIdentity(row, ObservedEntry(x))
    ensures SameIdentity(row, ObservedEntry(it)) <==> Acceptable(ont, items + {it})
  {
    var all := items + {it};
    assert x in all && it in all;
    if SameIdentity(row, ObservedEntry(it)) {
      forall a, b | a in all && b in all && ObservedId(a.obs).Some? && ObservedId(a.obs) == ObservedId(b.obs)
        ensures a.obs.subject.etype == b.obs.subject.etype && a.obs.obj.value.etype == b.obs.obj.value.etype
      {
        var a' := if a == it then x else a;
        var b' := if b == it then x else b;
        assert a' in items && b' in items;
      }
    }
  }

  lemma NoOtherStatement(ont: Ontology, g: Graph, items: set<Item>, it: Item)
    requires TablesExact(g, ObservedEntries(items)) && Acceptable(ont, items)
    requires ObservedId(it.obs).Some? && ObservedEntry(it).rid !in g.relationships
    requires ValidEdge(ont, it.obs.relationship.value, it.obs.subject.etype, it.obs.obj.value.etype)
    ensures Acceptable(ont, items + {it})
  {
    forall a | a in items && ObservedId(a.obs).Some?
      ensures ObservedId(a.obs) != ObservedId(it.obs)
    {
      assert ObservedEntry(a) in ObservedEntries(items);
    }
  }

  /** Processing the same observations in another order, or repeatedly, gives the same tables. */
  lemma OrderAndRepetitionIrrelevant(ont: Ontology, items: seq<Item>, items': seq<Item>)
    requires ItemSet(items) == ItemSet(items') && Distinct(ItemSet(items))
    ensures Project(ont, items).Done? <==> Project(ont, items').Done?
    ensures Project(ont, items).Done? ==> Project(ont, items) == Project(ont, items')
  {
    ProjectSucceeds(ont, items);
    ProjectSucceeds(ont, items');
    if Project(ont, items).Done? {
      ProjectExact(ont, items);
      ProjectExact(ont, items');
      OnlyAggregates(ont, items);
      OnlyAggregates(ont, items');
      TablesUnique(Project(ont, items).state, Project(ont, items').state, ObservedEntries(ItemSet(items)));
    }
  }

  lemma {:induction false} OnlyAggregates(ont: Ontology, items: seq<Item>)
    requires Project(ont, items).Done?
    ensures var g := Project(ont, items).state; g.derivations == map[] && g.supports == {} && g.roles == {}
  {
    if items != [] {
      OnlyAggregates(ont, items[..|items| - 1]);
    }
  }

  /* ----- The rows in terms of the observations ----- */

  // The item's observation states the relationship directly.
  predicate States(it: Item, rid: RelationshipId) {
    && rid.provenance == Observed && rid.rule == None
    && it.obs.tenant == rid.tenant && it.obs.relationship == Some(rid.rtype)
    && it.obs.obj.Some? && it.obs.subject.id == rid.source && it.obs.obj.value.id == rid.target
  }

  lemma StatementIsEntry(items: set<Item>, it: Item, rid: RelationshipId)
    requires it in items && States(it, rid)
    ensures exists e :: e in ObservedEntries(items) && e.rid == rid && e.obs == it.obs && e.seqNo == it.seqNo
                        && e.confidence == it.obs.confidence && e.sourceType == it.obs.subject.etype
                        && e.targetType == it.obs.obj.value.etype && e.evidence == (set x | x in it.obs.evidence :: x.id)
  {
    assert ObservedEntry(it) in ObservedEntries(items);
  }

  lemma EntryIsStatement(items: set<Item>, e: Entry)
    requires e in ObservedEntries(items)
    ensures exists it :: it in items && States(it, e.rid) && e.obs == it.obs && e.seqNo == it.seqNo
                         && e.confidence == it.obs.confidence && e.sourceType == it.obs.subject.etype
                         && e.targetType == it.obs.obj.value.etype && e.evidence == (set x | x in it.obs.evidence :: x.id)
  {
    var it :| it in items && ObservedId(it.obs).Some? && ObservedEntry(it) == e;
    assert States(it, e.rid);
  }

  // The statement lies within the row, and types its endpoints alike.
  predicate Within(row: RelationshipRow, it: Item) {
    && it.obs.obj.Some? && row.sourceType == it.obs.subject.etype && row.targetType == it.obs.obj.value.etype
    && it.obs.confidence <= row.confidence
    && row.span.firstSeen <= it.obs.eventTime <= row.span.lastSeen
    && row.span.firstSeq <= it.seqNo <= row.span.lastSeq
  }

  /** On tables whose entries of the relationship are what the items state: there is a row exactly if one does;
      its identity is the relationship's, its confidence the greatest stated, its bounds the true minima and
      maxima. */
  lemma RowsRead(g: Graph, es: set<Entry>, items: set<Item>, rid: RelationshipId)
    requires TablesExact(g, es) && EntriesOf(es, rid) == EntriesOf(ObservedEntries(items), rid)
    ensures rid in g.relationships <==> exists it :: it in items && States(it, rid)
    ensures rid in g.relationships ==>
      var row := g.relationships[rid];
      && row.rtype == rid.rtype && row.provenance == Observed && row.rule == None
      && row.sourceId == rid.source && row.targetId == rid.target
      && (forall it | it in items && States(it, rid) :: Within(row, it))
      && (exists it :: it in items && States(it, rid) && it.obs.confidence == row.confidence)
      && (exists it :: it in items && States(it, rid) && it.obs.eventTime == row.span.firstSeen)
      && (exists it :: it in items && States(it, rid) && it.obs.eventTime == row.span.lastSeen)
      && (exists it :: it in items && States(it, rid) && it.seqNo == row.span.firstSeq)
      && (exists it :: it in items && States(it, rid) && it.seqNo == row.span.lastSeq)
  {
    hide ObservedEntries, States, LineageExact, EvidenceExact, RowExact, Within;
    RelationshipKeys(g.relationships, es);
    SameEntries(es, ObservedEntries(items), rid);
    forall it | it in items && States(it, rid)
      ensures rid in g.relationships && Within(g.relationships[rid], it)
    {
      StatementWithin(g, es, items, rid, it);
    }
    if rid in g.relationships {
      RowAttained(g.relationships[rid], items, rid);
      var e :| e in es && e.rid == rid;
      EntryIsStatement(items, e);
      EntryWithin(g.relationships[rid], es, e);
      var it :| it in items && States(it, rid);
      StatesObject(it, rid);
    }
  }

  lemma StatementWithin(g: Graph, es: set<Entry>, items: set<Item>, rid: RelationshipId, it: Item)
    requires TablesExact(g, es) && EntriesOf(es, rid) == EntriesOf(ObservedEntries(items), rid) && it in items && States(it, rid)
    ensures rid in g.relationships && Within(g.relationships[rid], it)
  {
    hide ObservedEntries, States, LineageExact, EvidenceExact, RowExact;
    SameEntries(es, ObservedEntries(items), rid);
    StatesObject(it, rid);
    StatementIsEntry(items, it, rid);
    var e :| e in es && e.rid == rid && e.obs == it.obs && e.seqNo == it.seqNo && e.confidence == it.obs.confidence
      && e.sourceType == it.obs.subject.etype && e.targetType == it.obs.obj.value.etype;
    EntryWithin(g.relationships[rid], es, e);
  }

  lemma SameEntries(es: set<Entry>, fs: set<Entry>, rid: RelationshipId)
    requires EntriesOf(es, rid) == EntriesOf(fs, rid)
    ensures forall e: Entry | e.rid == rid :: e in es <==> e in fs
  {
    forall e: Entry | e.rid == rid
      ensures e in es <==> e in fs
    {
      assert e in EntriesOf(es, rid) <==> e in EntriesOf(fs, rid);
    }
  }

  lemma StatesObject(it: Item, rid: RelationshipId)
    requires States(it, rid)
    ensures it.obs.obj.Some? && rid.provenance == Observed && rid.rule == None
  {
  }

  lemma EntryWithin(row: RelationshipRow, es: set<Entry>, e: Entry)
    requires RowExact(row, EntriesOf(es, e.rid)) && e in es
    ensures row.rtype == e.rid.rtype && row.provenance == e.rid.provenance && row.rule == e.rid.rule
    ensures row.sourceId == e.rid.source && row.targetId == e.rid.target
    ensures row.sourceType == e.sourceType && row.targetType == e.targetType && e.confidence <= row.confidence
    ensures row.span.firstSeen <= e.obs.eventTime <= row.span.lastSeen && row.span.firstSeq <= e.seqNo <= row.span.lastSeq
  {
    assert e in EntriesOf(es, e.rid);
    assert PointOf(e) in Points(EntriesOf(es, e.rid));
  }

  lemma RowAttained(row: RelationshipRow, items: set<Item>, rid: RelationshipId)
    requires RowExact(row, EntriesOf(ObservedEntries(items), rid))
    ensures exists it :: it in items && States(it, rid) && it.obs.confidence == row.confidence
    ensures exists it :: it in items && States(it, rid) && it.obs.eventTime == row.span.firstSeen
    ensures exists it :: it in items && States(it, rid) && it.obs.eventTime == row.span.lastSeen
    ensures exists it :: it in items && States(it, rid) && it.seqNo == row.span.firstSeq
    ensures exists it :: it in items && States(it, rid) && it.seqNo == row.span.lastSeq
  {
    hide ObservedEntries, States;
    var es := EntriesOf(ObservedEntries(items), rid);
    var sure :| sure in es && sure.confidence == row.confidence;
    var first :| first in es && PointOf(first).time == row.span.firstSeen;
    var last :| last in es && PointOf(last).time == row.span.lastSeen;
    var least :| least in es && PointOf(least).seqNo == row.span.firstSeq;
    var greatest :| greatest in es && PointOf(greatest).seqNo == row.span.lastSeq;
    EntryIsStatement(items, sure);
    EntryIsStatement(items, first);
    EntryIsStatement(items, last);
    EntryIsStatement(items, least);
    EntryIsStatement(items, greatest);
  }

  /** The lineage rows are exactly the statements, each at its position and event time, and the evidence rows
      exactly the evidence of the statements. */
  lemma LineageRead(g: Graph, es: set<Entry>, items: set<Item>, k: LineageKey, x: string)
    requires TablesExact(g, es) && EntriesOf(es, k.rid) == EntriesOf(ObservedEntries(items), k.rid)
    ensures k in g.lineage <==> exists it :: it in items && States(it, k.rid) && it.obs.id == k.obsId
    ensures k in g.lineage ==>
      exists it :: it in items && States(it, k.rid) && it.obs.id == k.obsId
                   && g.lineage[k].seqNo == it.seqNo && g.lineage[k].time == it.obs.eventTime
    ensures EvidenceKey(k.rid, x) in g.evidence <==>
      exists it, e :: it in items && States(it, k.rid) && e in it.obs.evidence && e.id == x
  {
    hide States, ObservedEntries, RelationshipsExact;
    SameEntries(es, ObservedEntries(items), k.rid);
    if k in g.lineage {
      var e :| e in es && KeyOf(e) == k;
      EntryIsStatement(items, e);
    }
    if it :| it in items && States(it, k.rid) && it.obs.id == k.obsId {
      StatementIsEntry(items, it, k.rid);
    }
    EvidenceRead(g, es, items, k.rid, x);
  }

  lemma EvidenceRead(g: Graph, es: set<Entry>, items: set<Item>, rid: RelationshipId, x: string)
    requires TablesExact(g, es) && EntriesOf(es, rid) == EntriesOf(ObservedEntries(items), rid)
    ensures EvidenceKey(rid, x) in g.evidence <==> exists it, e :: it in items && States(it, rid) && e in it.obs.evidence && e.id == x
  {
    hide States, ObservedEntries, RelationshipsExact, LineageExact;
    var k := EvidenceKey(rid, x);
    SameEntries(es, ObservedEntries(items), rid);
    if k in g.evidence {
      var p :| p in Points(EvidenceEntriesOf(es, k));
      var e :| e in EvidenceEntriesOf(es, k) && PointOf(e) == p;
      EntryIsStatement(items, e);
    }
    if it, y :| it in items && States(it, rid) && y in it.obs.evidence && y.id == x {
      StatementIsEntry(items, it, rid);
      var e :| e in es && e.rid == rid && e.obs == it.obs && e.evidence == (set z | z in it.obs.evidence :: z.id);
      assert x in e.evidence;
    }
  }

  // An earlier statement of the relationship the item states types an endpoint otherwise.
  ghost predicate Retyped(items: set<Item>, it: Item) {
    exists prior, rid ::
      && prior in items && States(prior, rid) && States(it, rid)
      && (prior.obs.subject.etype != it.obs.subject.etype || prior.obs.obj.value.etype != it.obs.obj.value.etype)
  }

  /** How one item ends: nothing to do without a relationship; poison without an object or with an edge the
      ontology does not admit; an error exactly when the stored row types an endpoint otherwise. */
  lemma StepReports(ont: Ontology, g: Graph, items: set<Item>, it: Item)
    requires TablesExact(g, ObservedEntries(items))
    ensures var o := it.obs;
      var admitted := o.relationship.Some? && o.obj.Some?
        && o.relationship.value in ont.sources && o.subject.etype in ont.sources[o.relationship.value]
        && o.relationship.value in ont.targets && o.obj.value.etype in ont.targets[o.relationship.value];
      && (o.relationship.None? ==> Step(ont, g, it) == Done(g))
      && (Step(ont, g, it) == Poison("relationship_object_required") <==> o.relationship.Some? && o.obj.None?)
      && (Step(ont, g, it) == Poison("relationship_ontology_validation_failed") <==> o.relationship.Some? && o.obj.Some? && !admitted)
      && (Step(ont, g, it) == Aborted <==> admitted && Retyped(items, it))
      && (Step(ont, g, it).Done? <==> o.relationship.None? || (admitted && !Retyped(items, it)))
  {
    hide ObservedEntries, LineageExact, EvidenceExact, RowExact;
    var o := it.obs;
    if o.relationship.Some? && o.obj.Some? {
      var rid := ObservedEntry(it).rid;
      assert States(it, rid);
      RelationshipKeys(g.relationships, ObservedEntries(items));
      if rid in g.relationships {
        RowsReadTypes(g, items, it, rid);
      } else {
        forall prior | prior in items
          ensures !States(prior, rid)
        {
          if States(prior, rid) {
            StatementIsEntry(items, prior, rid);
          }
        }
      }
    }
  }

  lemma RowsReadTypes(g: Graph, items: set<Item>, it: Item, rid: RelationshipId)
    requires TablesExact(g, ObservedEntries(items)) && rid in g.relationships && States(it, rid)
    ensures SameIdentity(g.relationships[rid], ObservedEntry(it)) <==>
      forall prior | prior in items && States(prior, rid) ::
        prior.obs.subject.etype == it.obs.subject.etype && prior.obs.obj.value.etype == it.obs.obj.value.etype
  {
    RowsRead(g, ObservedEntries(items), items, rid);
    hide TablesExact;
    var prior :| prior in items && States(prior, rid);
    assert Within(g.relationships[rid], prior);
  }
}
