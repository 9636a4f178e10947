/** The relationship graph's tables and the upserts the relationship and correlation projectors
    make in them. The three aggregate tables are specified as a function of a set of entries:
    one entry for each (relationship, observation) the projectors recorded, in any order. */
module RelationshipGraph {
  import opened Domain
  import opened Spans

  datatype LineageKey = LineageKey(rid: RelationshipId, obsId: string)

  datatype EvidenceKey = EvidenceKey(rid: RelationshipId, evidenceId: string)

  datatype RelationshipRow = RelationshipRow(
    rtype: RelationshipType,
    provenance: Provenance,
    rule: Option<RuleId>,
    sourceId: string,
    sourceType: EntityType,
    targetId: string,
    targetType: EntityType,
    confidence: real,
    span: Span
  )

  datatype DerivationRow = DerivationRow(rule: RuleId, triggerSeq: nat, time: int, confidence: real)

  datatype SupportRow = SupportRow(key: LineageKey, support: RelationshipId)

  datatype EvidenceRole = TriggerRole | SupportRole

  datatype RoleRow = RoleRow(key: LineageKey, evidenceId: string, role: EvidenceRole)

  datatype Graph = Graph(
    relationships: map<RelationshipId, RelationshipRow>,
    lineage: map<LineageKey, Point>,
    evidence: map<EvidenceKey, Span>,
    derivations: map<LineageKey, DerivationRow>,
    supports: set<SupportRow>,
    roles: set<RoleRow>
  )

  const EMPTY_GRAPH := Graph(map[], map[], map[], map[], {}, {})

  /** One observation's contribution to one relationship: the endpoint types and confidence it
      asserts and the evidence it attaches. */
  datatype Entry = Entry(
    rid: RelationshipId,
    seqNo: nat,
    obs: Observation,
    sourceType: EntityType,
    targetType: EntityType,
    confidence: real,
    evidence: set<string>
  )

  function KeyOf(e: Entry): LineageKey { LineageKey(e.rid, e.obs.id) }

  function PointOf(e: Entry): Point { Point(e.seqNo, e.obs.eventTime) }

  function FreshRow(e: Entry): RelationshipRow {
    RelationshipRow(e.rid.rtype, e.rid.provenance, e.rid.rule, e.rid.source, e.sourceType,
                    e.rid.target, e.targetType, e.confidence, Fresh(PointOf(e)))
  }

  // The stored identity columns are those the entry asserts.
  predicate SameIdentity(row: RelationshipRow, e: Entry) {
    && row.rtype == e.rid.rtype
    && row.provenance == e.rid.provenance
    && row.rule == e.rid.rule
    && row.sourceId == e.rid.source
    && row.sourceType == e.sourceType
    && row.targetId == e.rid.target
    && row.targetType == e.targetType
  }

  function MergeRow(row: RelationshipRow, e: Entry): RelationshipRow {
    row.(span := Widen(row.span, PointOf(e)),
         confidence := if e.confidence > row.confidence then e.confidence else row.confidence)
  }

  function AddEvidence(m: map<EvidenceKey, Span>, rid: RelationshipId, ids: set<string>, p: Point)
    : (r: map<EvidenceKey, Span>)
  {
    map k | k in m.Keys + (set x | x in ids :: EvidenceKey(rid, x)) ::
      if k.rid == rid && k.evidenceId in ids
      then (if k in m then Widen(m[k], p) else Fresh(p))
      else m[k]
  }

  /** The writes both handlers make for one entry; None is the identity collision they raise. */
  function Record(g: Graph, e: Entry): Option<Graph> {
    if e.rid in g.relationships && !SameIdentity(g.relationships[e.rid], e) then None
    else Some(g.(
      relationships := g.relationships[e.rid :=
        if e.rid in g.relationships then MergeRow(g.relationships[e.rid], e) else FreshRow(e)],
      lineage := if KeyOf(e) in g.lineage then g.lineage else g.lineage[KeyOf(e) := PointOf(e)],
      evidence := AddEvidence(g.evidence, e.rid, e.evidence, PointOf(e))))
  }

  /* ----- The meaning of the tables ----- */

  ghost function EntriesOf(es: set<Entry>, rid: RelationshipId): set<Entry> {
    set e | e in es && e.rid == rid
  }

  ghost function EvidenceEntriesOf(es: set<Entry>, k: EvidenceKey): set<Entry> {
    set e | e in es && e.rid == k.rid && k.evidenceId in e.evidence
  }

  ghost function Points(es: set<Entry>): set<Point> {
    set e | e in es :: PointOf(e)
  }

  // A row is its relationship's identity, the types every entry agrees on, and true bounds.
  ghost predicate RowExact(row: RelationshipRow, es: set<Entry>) {
    && (forall e | e in es :: SameIdentity(row, e))
    && (forall e | e in es :: e.confidence <= row.confidence)
    && (exists e :: e in es && e.confidence == row.confidence)
    && Covers(row.span, Points(es))
  }

  ghost predicate RelationshipsExact(m: map<RelationshipId, RelationshipRow>, es: set<Entry>) {
    && (forall e | e in es :: e.rid in m)
    && (forall rid | rid in m :: RowExact(m[rid], EntriesOf(es, rid)))
  }

  ghost predicate LineageExact(m: map<LineageKey, Point>, es: set<Entry>) {
    && (forall e | e in es :: KeyOf(e) in m && m[KeyOf(e)] == PointOf(e))
    && (forall k | k in m :: exists e :: e in es && KeyOf(e) == k)
  }

  ghost predicate EvidenceExact(m: map<EvidenceKey, Span>, es: set<Entry>) {
    && (forall e, x | e in es && x in e.evidence :: EvidenceKey(e.rid, x) in m)
    && (forall k | k in m :: Covers(m[k], Points(EvidenceEntriesOf(es, k))))
  }

  ghost predicate TablesExact(g: Graph, es: set<Entry>) {
    && RelationshipsExact(g.relationships, es)
    && LineageExact(g.lineage, es)
    && EvidenceExact(g.evidence, es)
  }

  // A relationship is recorded at most once for an observation.
  ghost predicate Identified(es: set<Entry>) {
    forall d, e | d in es && e in es && KeyOf(d) == KeyOf(e) :: d == e
  }

  lemma PointsPlus(es: set<Entry>, e: Entry)
    ensures Points(es + {e}) == Points(es) + {PointOf(e)}
  {
    forall p | p in Points(es) + {PointOf(e)}
      ensures p in Points(es + {e})
    {
      if p in Points(es) {
        var d :| d in es && PointOf(d) == p;
        assert d in es + {e};
      } else {
        assert e in es + {e};
      }
    }
  }

  lemma FreshRowExact(e: Entry)
    ensures RowExact(FreshRow(e), {e})
  {
    FreshCovers(PointOf(e));
    assert Points({e}) == {PointOf(e)};
    assert e in {e};
  }

  lemma MergeRowExact(row: RelationshipRow, es: set<Entry>, e: Entry)
    requires RowExact(row, es) && SameIdentity(row, e)
    ensures RowExact(MergeRow(row, e), es + {e})
  {
    PointsPlus(es, e);
    WidenCovers(row.span, Points(es), PointOf(e));
    var top :| top in es && top.confidence == row.confidence;
    assert top in es + {e} && e in es + {e};
  }

  lemma EntriesOfPlus(es: set<Entry>, e: Entry, rid: RelationshipId)
    ensures EntriesOf(es + {e}, rid) == EntriesOf(es, rid) + (if rid == e.rid then {e} else {})
  {
  }

  lemma RecordedRowExact(m: map<RelationshipId, RelationshipRow>, es: set<Entry>, e: Entry)
    requires RelationshipsExact(m, es)
    requires e.rid in m ==> SameIdentity(m[e.rid], e)
    ensures RowExact(if e.rid in m then MergeRow(m[e.rid], e) else FreshRow(e), EntriesOf(es, e.rid) + {e})
  {
    var mine := EntriesOf(es, e.rid);
    if e.rid in m {
      MergeRowExact(m[e.rid], mine, e);
    } else {
      assert mine + {e} == {e};
      FreshRowExact(e);
    }
  }

  lemma RecordRelationshipsExact(g: Graph, es: set<Entry>, e: Entry)
    requires RelationshipsExact(g.relationships, es) && Record(g, e).Some?
    ensures RelationshipsExact(Record(g, e).value.relationships, es + {e})
  {
    var m, m' := g.relationships, Record(g, e).value.relationships;
    RecordedRowExact(m, es, e);
    forall rid | rid in m'
      ensures RowExact(m'[rid], EntriesOf(es + {e}, rid))
    {
      UpdatedRowExact(m, es, e, m'[e.rid], rid);
    }
  }

  lemma UpdatedRowExact(m: map<RelationshipId, RelationshipRow>, es: set<Entry>, e: Entry, row: RelationshipRow, rid: RelationshipId)
    requires rid in m[e.rid := row]
    requires rid in m ==> RowExact(m[rid], EntriesOf(es, rid))
    requires RowExact(row, EntriesOf(es, e.rid) + {e})
    ensures RowExact(m[e.rid := row][rid], EntriesOf(es + {e}, rid))
  {
    EntriesOfPlus(es, e, rid);
    if rid != e.rid {
      assert EntriesOf(es + {e}, rid) == EntriesOf(es, rid);
    }
  }

  lemma RecordLineageExact(g: Graph, es: set<Entry>, e: Entry)
    requires LineageExact(g.lineage, es) && Identified(es + {e}) && Record(g, e).Some?
    ensures LineageExact(Record(g, e).value.lineage, es + {e})
  {
    var m, m' := g.lineage, Record(g, e).value.lineage;
    forall k | k in m'
      ensures exists d :: d in es + {e} && KeyOf(d) == k
    {
      if k in m {
        var d :| d in es && KeyOf(d) == k;
        assert d in es + {e};
      } else {
        assert e in es + {e};
      }
    }
    if KeyOf(e) in m {
      var d :| d in es && KeyOf(d) == KeyOf(e);
      assert d in es + {e} && e in es + {e};
    }
  }

  lemma RecordEvidenceExact(g: Graph, es: set<Entry>, e: Entry)
    requires EvidenceExact(g.evidence, es) && Record(g, e).Some?
    ensures EvidenceExact(Record(g, e).value.evidence, es + {e})
  {
    hide Covers, Points;
    var m, m' := g.evidence, Record(g, e).value.evidence;
    var all := es + {e};
    forall k | k in m'
      ensures Covers(m'[k], Points(EvidenceEntriesOf(all, k)))
    {
      var mine := EvidenceEntriesOf(es, k);
      if k.rid == e.rid && k.evidenceId in e.evidence {
        assert EvidenceEntriesOf(all, k) == mine + {e};
        PointsPlus(mine, e);
        if k in m {
          WidenCovers(m[k], Points(mine), PointOf(e));
        } else {
          assert mine == {};
          FreshCovers(PointOf(e));
          NoPoints();
          assert {} + {PointOf(e)} == {PointOf(e)};
        }
      } else {
        assert EvidenceEntriesOf(all, k) == mine;
      }
    }
  }

  lemma NoPoints()
    ensures Points({}) == {}
  {
  }

  /** Recording an entry adds exactly that entry to what the tables aggregate. */
  lemma RecordExact(g: Graph, es: set<Entry>, e: Entry)
    requires TablesExact(g, es) && Identified(es + {e}) && Record(g, e).Some?
    ensures TablesExact(Record(g, e).value, es + {e})
  {
    RecordRelationshipsExact(g, es, e);
    RecordLineageExact(g, es, e);
    RecordEvidenceExact(g, es, e);
  }

  /** The tables are a function of the set of entries alone: arrival order and repeats of
      entries leave no trace in them. */
  lemma TablesUnique(g: Graph, g': Graph, es: set<Entry>)
    requires TablesExact(g, es) && TablesExact(g', es)
    ensures g.relationships == g'.relationships && g.lineage == g'.lineage && g.evidence == g'.evidence
  {
    RelationshipsUnique(g.relationships, g'.relationships, es);
    LineageUnique(g.lineage, g'.lineage, es);
    EvidenceUnique(g.evidence, g'.evidence, es);
  }

  lemma RowUnique(row: RelationshipRow, row': RelationshipRow, es: set<Entry>)
    requires RowExact(row, es) && RowExact(row', es)
    ensures row == row'
  {
    var a :| a in es && a.confidence == row.confidence;
    var b :| b in es && b.confidence == row'.confidence;
    CoversUnique(row.span, row'.span, Points(es));
  }

  lemma RelationshipsUnique(m: map<RelationshipId, RelationshipRow>, m': map<RelationshipId, RelationshipRow>, es: set<Entry>)
    requires RelationshipsExact(m, es) && RelationshipsExact(m', es)
    ensures m == m'
  {
    hide RowExact;
    RelationshipKeys(m, es);
    RelationshipKeys(m', es);
    forall rid | rid in m
      ensures m[rid] == m'[rid]
    {
      RowUnique(m[rid], m'[rid], EntriesOf(es, rid));
    }
  }

  lemma RelationshipKeys(m: map<RelationshipId, RelationshipRow>, es: set<Entry>)
    requires RelationshipsExact(m, es)
    ensures m.Keys == set e | e in es :: e.rid
  {
    forall rid | rid in m
      ensures exists e :: e in es && e.rid == rid
    {
      var row := m[rid];
      var e :| e in EntriesOf(es, rid) && e.confidence == row.confidence;
    }
  }

  lemma LineageUnique(m: map<LineageKey, Point>, m': map<LineageKey, Point>, es: set<Entry>)
    requires LineageExact(m, es) && LineageExact(m', es)
    ensures m == m'
  {
    forall k | k in m || k in m'
      ensures k in m && k in m' && m[k] == m'[k]
    {
      var e :| e in es && KeyOf(e) == k;
    }
  }

  lemma EvidenceUnique(m: map<EvidenceKey, Span>, m': map<EvidenceKey, Span>, es: set<Entry>)
    requires EvidenceExact(m, es) && EvidenceExact(m', es)
    ensures m == m'
  {
    forall k | k in m || k in m'
      ensures k in m && k in m' && m[k] == m'[k]
    {
      var pts := Points(EvidenceEntriesOf(es, k));
      assert exists p :: p in pts;
      var p :| p in pts;
      var e :| e in EvidenceEntriesOf(es, k) && PointOf(e) == p;
      CoversUnique(m[k], m'[k], pts);
    }
  }

  /** The stored tables, updated in place. */
  class GraphStore {
    var relationships: map<RelationshipId, RelationshipRow>
    var lineage: map<LineageKey, Point>
    var evidence: map<EvidenceKey, Span>
    var derivations: map<LineageKey, DerivationRow>
    var supports: set<SupportRow>
    var roles: set<RoleRow>

    function Snapshot(): Graph
      reads this
    {
      Graph(relationships, lineage, evidence, derivations, supports, roles)
    }

    constructor ()
      ensures Snapshot() == EMPTY_GRAPH
    {
      relationships, lineage, evidence, derivations := map[], map[], map[], map[];
      supports, roles := {}, {};
    }

    // _upsert_relationship: insert, or compare the identity and widen field by field.
    method UpsertRelationship(e: Entry) returns (ok: bool)
      modifies this`relationships
      ensures ok <==> (e.rid in old(relationships) ==> SameIdentity(old(relationships)[e.rid], e))
      ensures relationships == if !ok then old(relationships) else
        old(relationships)[e.rid :=
          if e.rid in old(relationships) then MergeRow(old(relationships)[e.rid], e) else FreshRow(e)]
    {
      if e.rid !in relationships {
        relationships := relationships[e.rid := FreshRow(e)];
        return true;
      }
      var row := relationships[e.rid];
      if !SameIdentity(row, e) {
        return false;
      }
      var p := PointOf(e);
      if p.time < row.span.firstSeen {
        row := row.(span := row.span.(firstSeen := p.time));
      }
      if p.time > row.span.lastSeen {
        row := row.(span := row.span.(lastSeen := p.time));
      }
      if p.seqNo < row.span.firstSeq {
        row := row.(span := row.span.(firstSeq := p.seqNo));
      }
      if p.seqNo > row.span.lastSeq {
        row := row.(span := row.span.(lastSeq := p.seqNo));
      }
      if e.confidence > row.confidence {
        row := row.(confidence := e.confidence);
      }
      relationships := relationships[e.rid := row];
      ok := true;
    }

    method InsertLineage(key: LineageKey, p: Point)
      modifies this`lineage
      ensures lineage == if key in old(lineage) then old(lineage) else old(lineage)[key := p]
    {
      if key !in lineage {
        lineage := lineage[key := p];
      }
    }

    method UpsertEvidence(rid: RelationshipId, ids: set<string>, p: Point)
      modifies this`evidence
      ensures evidence == AddEvidence(old(evidence), rid, ids, p)
    {
      ghost var done: set<string> := {};
      var rest := ids;
      assert evidence == AddEvidence(old(evidence), rid, done, p);
      while rest != {}
        invariant done + rest == ids && done !! rest
        invariant evidence == AddEvidence(old(evidence), rid, done, p)
        decreases rest
      {
        var x :| x in rest;
        var key := EvidenceKey(rid, x);
        evidence := evidence[key := if key in evidence then Widen(evidence[key], p) else Fresh(p)];
        rest, done := rest - {x}, done + {x};
        assert evidence == AddEvidence(old(evidence), rid, done, p);
      }
      assert done == ids;
    }

    method RecordEntry(e: Entry) returns (ok: bool)
      modifies this`relationships, this`lineage, this`evidence
      ensures ok <==> Record(old(Snapshot()), e).Some?
      ensures Snapshot() == if ok then Record(old(Snapshot()), e).value else old(Snapshot())
    {
      ok := UpsertRelationship(e);
      if ok {
        InsertLineage(KeyOf(e), PointOf(e));
        UpsertEvidence(e.rid, e.evidence, PointOf(e));
      }
    }
  }
}
