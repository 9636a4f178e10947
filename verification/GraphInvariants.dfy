/** From exactness to the invariants the planner relies on, and what two exact graphs over one log
    have in common. */
module GraphInvariants {
  import opened Domain
  import opened RelationshipGraph
  import opened CorrelationRules
  import opened CorrelationHistory
  import opened CorrelationExactness
  import opened CorrelationTheorems
  import opened AttackScenePlanner
  import opened AttackSceneFacts
  import opened AttackSceneStability
  import EntityProjection

  // The relationship projector stands at r and the correlation projector at n.
  ghost predicate GraphAt(g: Graph, log: seq<Observation>, cfg: Config, r: nat, n: nat)
    requires n <= |log| && r <= |log|
  {
    GraphExact(g, log, r, Derivations(log, cfg, n))
  }

  ghost function Present(log: seq<Observation>, cfg: Config, r: nat, n: nat): set<Entry>
    requires n <= |log| && r <= |log|
  {
    EntriesAt(log, r, Derivations(log, cfg, n))
  }

  lemma PresentReadable(g: Graph, log: seq<Observation>, cfg: Config, r: nat, n: nat)
    requires n <= |log| && r <= |log| && GraphAt(g, log, cfg, r, n)
    ensures Readable(g, Present(log, cfg, r, n))
    ensures LineageTablesExact(g, Derivations(log, cfg, n))
    ensures g.relationships.Keys == set e | e in Present(log, cfg, r, n) :: e.rid
  {
    hide TablesExact, LineageTablesExact, Derivations, EntriesAt, Readable;
    ExactReadable(g, Present(log, cfg, r, n));
    KeysOf(g, Present(log, cfg, r, n));
  }

  lemma KeysOf(g: Graph, es: set<Entry>)
    requires TablesExact(g, es)
    ensures g.relationships.Keys == set e | e in es :: e.rid
  {
    RelationshipKeys(g.relationships, es);
  }

  lemma LineageOrigin(g: Graph, es: set<Entry>, k: LineageKey) returns (e: Entry)
    requires Readable(g, es) && k in g.lineage
    ensures e in es && KeyOf(e) == k && g.lineage[k] == PointOf(e) && k.rid in g.relationships
  {
    e :| e in es && KeyOf(e) == k;
  }

  lemma EntryRows(g: Graph, es: set<Entry>, e: Entry)
    requires Readable(g, es) && e in es
    ensures KeyOf(e) in g.lineage && g.lineage[KeyOf(e)] == PointOf(e)
    ensures e.rid in g.relationships && SameIdentity(g.relationships[e.rid], e)
  {
  }

  // Where a present entry comes from.
  lemma PresentOrigin(log: seq<Observation>, cfg: Config, r: nat, n: nat, e: Entry)
    requires n <= |log| && r <= |log| && e in Present(log, cfg, r, n)
    ensures 1 <= e.seqNo <= |log| && e.obs == log[e.seqNo - 1] && e.rid.tenant == e.obs.tenant
    ensures e.rid.provenance == Observed ==> e in Stated(log, r)
    ensures e.rid.provenance == Deterministic ==> exists d :: d in Derivations(log, cfg, n) && d.entry == e
  {
    hide Derivations, Shaped;
    KnownOrigin(log, cfg, r, n);
    AllShaped(log, cfg, Derivations(log, cfg, n));
    EntryOrigin(cfg, log, r, Derivations(log, cfg, n), e);
    StatedMember(log, r, e);
  }

  lemma DerivationShape(log: seq<Observation>, cfg: Config, n: nat, d: Derivation)
    requires n <= |log| && d in Derivations(log, cfg, n)
    ensures Shaped(cfg.ruleOntology, log, d) && Justified(log, cfg, d) && d.entry.seqNo <= n
  {
    hide Derivations, Justified;
    DerivationMember(log, cfg, n, d);
    JustifiedShaped(log, cfg, d);
  }

  // Entries known at m are present in every graph that has got that far.
  lemma KnownPresent(log: seq<Observation>, cfg: Config, r: nat, n: nat, m: nat, e: Entry)
    requires m <= n <= |log| && m <= r <= |log| && e in Known(log, cfg, m)
    ensures e in Present(log, cfg, r, n)
  {
    hide Derivations, Stated, Justified;
    StatedMember(log, m, e);
    StatedMember(log, r, e);
    if e !in Stated(log, m) {
      var d :| d in Derivations(log, cfg, m) && d.entry == e;
      DerivationMember(log, cfg, m, d);
      DerivationMember(log, cfg, n, d);
    }
  }

  // Entries present at or below m were known at m.
  lemma PresentKnown(log: seq<Observation>, cfg: Config, r: nat, n: nat, m: nat, e: Entry)
    requires m <= n <= |log| && m <= r <= |log| && e in Present(log, cfg, r, n) && e.seqNo <= m
    ensures e in Known(log, cfg, m)
  {
    hide Derivations, Stated, Justified;
    StatedMember(log, m, e);
    StatedMember(log, r, e);
    if e !in Stated(log, r) {
      var d :| d in Derivations(log, cfg, n) && d.entry == e;
      DerivationMember(log, cfg, m, d);
      DerivationMember(log, cfg, n, d);
    }
  }

  /* ----- Well-formedness ----- */

  lemma ExactDerivations(g: Graph, log: seq<Observation>, cfg: Config, r: nat, n: nat)
    requires n <= |log| && r <= |log| && GraphAt(g, log, cfg, r, n)
    ensures DerivationsWellFormed(g)
  {
    hide GraphAt, Derivations, Justified, Present, Readable;
    PresentReadable(g, log, cfg, r, n);
    forall k | k in g.derivations
      ensures TriggerSound(g, k) && k.rid.provenance == Deterministic
              && k.rid.rule == Some(g.derivations[k].rule) && k.rid.rtype == Output(g.derivations[k].rule)
    {
      var d :| d in Derivations(log, cfg, n) && KeyOf(d.entry) == k;
      DerivationShape(log, cfg, n, d);
      DerivedPresent(log, cfg, r, n, d);
      EntryRows(g, Present(log, cfg, r, n), d.entry);
    }
  }

  lemma DerivedPresent(log: seq<Observation>, cfg: Config, r: nat, n: nat, d: Derivation)
    requires n <= |log| && r <= |log| && d in Derivations(log, cfg, n)
    ensures d.entry in Present(log, cfg, r, n)
  {
    hide Derivations, Stated;
  }

  lemma ExactLineage(g: Graph, log: seq<Observation>, cfg: Config, r: nat, n: nat)
    requires n <= |log| && r <= |log| && GraphAt(g, log, cfg, r, n)
    ensures LineageWellFormed(g)
  {
    hide GraphAt, Derivations, Justified, Present, Readable;
    PresentReadable(g, log, cfg, r, n);
    var es := Present(log, cfg, r, n);
    forall k | k in g.lineage
      ensures k.rid in g.relationships
      ensures k.rid.provenance == Deterministic ==> k in g.derivations
    {
      var e := LineageOrigin(g, es, k);
      PresentOrigin(log, cfg, r, n, e);
    }
    forall rid | rid in g.relationships
      ensures RowMatches(g.relationships[rid], rid)
    {
      var e :| e in es && e.rid == rid;
      EntryRows(g, es, e);
    }
  }

  lemma SupportPresent(log: seq<Observation>, cfg: Config, r: nat, n: nat, d: Derivation, sup: RelationshipId) returns (e: Entry)
    requires n <= r <= |log| && d in Derivations(log, cfg, n) && sup in d.supports
    ensures e in Present(log, cfg, r, n) && e.rid == sup && e.seqNo < d.entry.seqNo
    ensures ChainLink(d.rule, d.entry.rid, sup)
  {
    hide Derivations, Justified, Known, Present;
    DerivationShape(log, cfg, n, d);
    e := SupportIsPrior(log, cfg, d, sup);
    KnownPresent(log, cfg, r, n, d.entry.seqNo - 1, e);
  }

  lemma ExactSupports(g: Graph, log: seq<Observation>, cfg: Config, r: nat, n: nat)
    requires n <= r <= |log| && GraphAt(g, log, cfg, r, n)
    ensures SupportsWellFormed(g)
  {
    hide GraphAt, Derivations, Justified, Present, Readable;
    PresentReadable(g, log, cfg, r, n);
    forall s | s in g.supports
      ensures s.key in g.derivations && HasLineageBefore(g, s.support, g.derivations[s.key].triggerSeq)
              && ChainLink(g.derivations[s.key].rule, s.key.rid, s.support)
    {
      var d :| d in Derivations(log, cfg, n) && s.support in d.supports && s.key == KeyOf(d.entry);
      var e := SupportPresent(log, cfg, r, n, d, s.support);
      EntryRows(g, Present(log, cfg, r, n), e);
    }
  }

  lemma ExactPositions(g: Graph, log: seq<Observation>, cfg: Config, r: nat, n: nat)
    requires n <= |log| && r <= |log| && GraphAt(g, log, cfg, r, n) && UniqueObservations(log)
    ensures PositionsWellFormed(g)
  {
    hide GraphAt, Derivations, Present, LineageTablesExact, Readable;
    PresentReadable(g, log, cfg, r, n);
    var es := Present(log, cfg, r, n);
    forall j, k | j in g.lineage && k in g.lineage
      ensures j.rid.tenant == k.rid.tenant && j.obsId == k.obsId ==> g.lineage[j] == g.lineage[k]
      ensures g.lineage[j].seqNo == g.lineage[k].seqNo ==> j.rid.tenant == k.rid.tenant
    {
      hide UniqueObservations;
      var d := LineageOrigin(g, es, j);
      var e := LineageOrigin(g, es, k);
      PresentOrigin(log, cfg, r, n, d);
      PresentOrigin(log, cfg, r, n, e);
      if j.rid.tenant == k.rid.tenant && j.obsId == k.obsId {
        SamePosition(log, d, e);
      }
    }
  }

  /** Every graph the handlers can have written satisfies the planner's invariants. */
  lemma ExactWellFormed(g: Graph, log: seq<Observation>, cfg: Config, r: nat, n: nat)
    requires n <= r <= |log| && GraphAt(g, log, cfg, r, n) && UniqueObservations(log)
    ensures WellFormed(g)
  {
    hide GraphAt, DerivationsWellFormed, LineageWellFormed, SupportsWellFormed, PositionsWellFormed;
    ExactDerivations(g, log, cfg, r, n);
    ExactLineage(g, log, cfg, r, n);
    ExactSupports(g, log, cfg, r, n);
    ExactPositions(g, log, cfg, r, n);
  }

  lemma LineagePosition(g: Graph, log: seq<Observation>, cfg: Config, r: nat, n: nat, k: LineageKey)
    requires n <= |log| && r <= |log| && GraphAt(g, log, cfg, r, n) && k in g.lineage
    ensures 1 <= g.lineage[k].seqNo <= |log| && log[g.lineage[k].seqNo - 1].tenant == k.rid.tenant
  {
    hide GraphAt, Derivations, Present, LineageTablesExact, Readable;
    PresentReadable(g, log, cfg, r, n);
    var e := LineageOrigin(g, Present(log, cfg, r, n), k);
    PresentOrigin(log, cfg, r, n, e);
  }

  /* ----- Entities cover what is recorded ----- */

  lemma ReferencedIsClaimed(log: seq<Observation>, n: nat, ref: TypedRef)
    requires n <= |log| && ref in Refs(log, n)
    ensures exists c :: c in EntityProjection.ItemClaims(Items(log, n))
                        && c.key == EntityProjection.EntityKey(ref.tenant, ref.id)
                        && (EntityProjection.NoContradictions(Items(log, n)) ==> c.ref.etype == ref.etype)
  {
    var item :| item in Items(log, n) && ref in RefsOf(item.obs);
    var o := item.obs;
    var c := if ref == TypedRef(o.tenant, o.subject.id, o.subject.etype) then EntityProjection.ClaimOf(item, o.subject)
             else if o.obj.value.id == o.subject.id then EntityProjection.ClaimOf(item, o.subject)
             else EntityProjection.ClaimOf(item, o.obj.value);
    assert c in EntityProjection.ClaimsOf(item);
  }

  lemma EntitiesCoverExact(g: Graph, ents: EntityProjection.Entities, log: seq<Observation>, cfg: Config, e: nat, r: nat, n: nat, b: nat)
    requires n <= |log| && r <= |log| && b <= e <= |log| && GraphAt(g, log, cfg, r, n)
    requires EntityProjection.EntitiesExact(ents, EntityProjection.ItemClaims(Items(log, e)))
    ensures EntitiesCover(g, ents, b)
  {
    hide GraphAt, Derivations, LineageTablesExact, EntityProjection.RowExact, EntityProjection.ItemClaims, Refs, Readable;
    PresentReadable(g, log, cfg, r, n);
    forall k | k in g.lineage && g.lineage[k].seqNo <= b
      ensures EntityProjection.EntityKey(k.rid.tenant, k.rid.source) in ents
      ensures EntityProjection.EntityKey(k.rid.tenant, k.rid.target) in ents
    {
      var x := LineageOrigin(g, Present(log, cfg, r, n), k);
      EndpointsReferenced(log, cfg, r, n, x);
      RefsGrow(log, x.seqNo, e);
      ReferencedIsClaimed(log, e, SourceRef(x));
      ReferencedIsClaimed(log, e, TargetRef(x));
    }
  }

  /** Whatever the entity projector has accepted is consistently typed. */
  lemma AcceptedIsOneType(ents: EntityProjection.Entities, log: seq<Observation>, e: nat, n: nat)
    requires n <= e <= |log|
    requires EntityProjection.EntitiesExact(ents, EntityProjection.ItemClaims(Items(log, e)))
    requires EntityProjection.NoContradictions(Items(log, e))
    ensures OneType(log, n)
  {
    hide EntityProjection.ItemClaims, Refs, EntityProjection.RowExact;
    RefsGrow(log, n, e);
    forall a, b | a in Refs(log, n) && b in Refs(log, n) && a.tenant == b.tenant && a.id == b.id
      ensures a == b
    {
      ClaimedType(ents, log, e, a);
      ClaimedType(ents, log, e, b);
    }
  }

  lemma ClaimedType(ents: EntityProjection.Entities, log: seq<Observation>, e: nat, a: TypedRef)
    requires e <= |log| && a in Refs(log, e)
    requires EntityProjection.EntitiesExact(ents, EntityProjection.ItemClaims(Items(log, e)))
    requires EntityProjection.NoContradictions(Items(log, e))
    ensures EntityProjection.EntityKey(a.tenant, a.id) in ents
    ensures ents[EntityProjection.EntityKey(a.tenant, a.id)].etype == a.etype
  {
    hide EntityProjection.ItemClaims, Refs, EntityProjection.RowExact;
    ReferencedIsClaimed(log, e, a);
    var c :| c in EntityProjection.ItemClaims(Items(log, e)) && c.key == EntityProjection.EntityKey(a.tenant, a.id)
             && c.ref.etype == a.etype;
    EntityProjection.RowType(ents[c.key], EntityProjection.ClaimsAbout(EntityProjection.ItemClaims(Items(log, e)), c.key), c);
  }

  /* ----- Two graphs over one log ----- */

  lemma LineageUpTo(g: Graph, log: seq<Observation>, cfg: Config, r: nat, n: nat, b: nat, k: LineageKey)
    requires b <= n <= r <= |log| && GraphAt(g, log, cfg, r, n)
    ensures (k in g.lineage && g.lineage[k].seqNo <= b) <==> exists e :: e in Known(log, cfg, b) && KeyOf(e) == k
    ensures forall e | e in Known(log, cfg, b) && KeyOf(e) == k :: k in g.lineage && g.lineage[k] == PointOf(e)
  {
    hide GraphAt, Derivations, LineageTablesExact, Present, Known, Readable;
    PresentReadable(g, log, cfg, r, n);
    forall e | e in Known(log, cfg, b) && KeyOf(e) == k
      ensures k in g.lineage && g.lineage[k] == PointOf(e) && e.seqNo <= b
    {
      KnownPresent(log, cfg, r, n, b, e);
      KnownBounded(log, cfg, b, e);
      EntryRows(g, Present(log, cfg, r, n), e);
    }
    if k in g.lineage && g.lineage[k].seqNo <= b {
      var e := LineageOrigin(g, Present(log, cfg, r, n), k);
      PresentKnown(log, cfg, r, n, b, e);
    }
  }

  lemma DerivationsUpTo(log: seq<Observation>, cfg: Config, n: nat, b: nat, d: Derivation)
    requires b <= n <= |log|
    ensures d in Derivations(log, cfg, b) <==> d in Derivations(log, cfg, n) && d.entry.seqNo <= b
  {
    hide Derivations, Justified;
    DerivationMember(log, cfg, n, d);
    DerivationMember(log, cfg, b, d);
  }

  lemma DerivationRowsUpTo(g: Graph, log: seq<Observation>, cfg: Config, r: nat, n: nat, b: nat, k: LineageKey)
    requires b <= n <= r <= |log| && GraphAt(g, log, cfg, r, n) && UniqueObservations(log)
    ensures (k in g.derivations && g.derivations[k].triggerSeq <= b) <==>
      exists d :: d in Derivations(log, cfg, b) && KeyOf(d.entry) == k
    ensures forall d | d in Derivations(log, cfg, b) && KeyOf(d.entry) == k ::
      k in g.derivations && g.derivations[k] == DerivationRowOf(d)
      && forall sup :: SupportRow(k, sup) in g.supports <==> sup in d.supports
  {
    hide GraphAt, Derivations, Present, Readable, Justified;
    PresentReadable(g, log, cfg, r, n);
    var ds := Derivations(log, cfg, n);
    forall d | d in Derivations(log, cfg, b) && KeyOf(d.entry) == k
      ensures k in g.derivations && g.derivations[k] == DerivationRowOf(d) && d.entry.seqNo <= b
      ensures forall sup :: SupportRow(k, sup) in g.supports <==> sup in d.supports
    {
      DerivationsUpTo(log, cfg, n, b, d);
      assert g.derivations[KeyOf(d.entry)] == DerivationRowOf(d);
      forall sup
        ensures SupportRow(k, sup) in g.supports <==> sup in d.supports
      {
        if SupportRow(k, sup) in g.supports {
          var x :| x in ds && sup in x.supports && KeyOf(x.entry) == k;
          DerivationShape(log, cfg, n, x);
          DerivationShape(log, cfg, n, d);
          UniqueKey(log, cfg, x, d);
        }
      }
    }
    if k in g.derivations && g.derivations[k].triggerSeq <= b {
      var d :| d in ds && KeyOf(d.entry) == k;
      assert g.derivations[KeyOf(d.entry)] == DerivationRowOf(d);
      DerivationsUpTo(log, cfg, n, b, d);
    }
  }

  /** Two graphs over the same log agree on every row up to a boundary both have passed, wherever
      their projectors stand beyond it. */
  lemma ExactSameRows(g: Graph, g': Graph, log: seq<Observation>, cfg: Config, r: nat, n: nat, r': nat, n': nat, b: nat,
                      tenant: string)
    requires b <= n <= r <= |log| && b <= n' <= r' <= |log| && UniqueObservations(log)
    requires GraphAt(g, log, cfg, r, n) && GraphAt(g', log, cfg, r', n')
    ensures SameRows(g, b, g', b, tenant)
  {
    hide GraphAt, Derivations, Known, UniqueObservations;
    forall k: LineageKey
      ensures (k in g.lineage && g.lineage[k].seqNo <= b) <==> (k in g'.lineage && g'.lineage[k].seqNo <= b)
      ensures k in g.lineage && g.lineage[k].seqNo <= b ==> g.lineage[k] == g'.lineage[k]
    {
      LineageUpTo(g, log, cfg, r, n, b, k);
      LineageUpTo(g', log, cfg, r', n', b, k);
    }
    forall k: LineageKey
      ensures (k in g.derivations && g.derivations[k].triggerSeq <= b) <==> (k in g'.derivations && g'.derivations[k].triggerSeq <= b)
      ensures k in g.derivations && g.derivations[k].triggerSeq <= b ==> g.derivations[k] == g'.derivations[k]
      ensures k in g.derivations && g.derivations[k].triggerSeq <= b ==>
        forall sup :: SupportRow(k, sup) in g.supports <==> SupportRow(k, sup) in g'.supports
    {
      DerivationRowsUpTo(g, log, cfg, r, n, b, k);
      DerivationRowsUpTo(g', log, cfg, r', n', b, k);
    }
  }

  /* ----- Appending to the log ----- */

  lemma ItemsPrefix(log: seq<Observation>, log': seq<Observation>, n: nat)
    requires n <= |log| && log <= log'
    ensures Items(log', n) == Items(log, n)
  {
    forall k: nat | 1 <= k <= n
      ensures ItemAt(log', k) == ItemAt(log, k)
    {
    }
  }

  lemma {:induction false} DerivationsPrefix(log: seq<Observation>, log': seq<Observation>, cfg: Config, n: nat)
    requires n <= |log| && log <= log'
    ensures Derivations(log', cfg, n) == Derivations(log, cfg, n)
  {
    hide NewDerivations, Items;
    if n > 0 {
      DerivationsPrefix(log, log', cfg, n - 1);
      ItemsPrefix(log, log', n - 1);
    }
  }

  /** A graph exact for a log is exact for every extension of it: nothing not yet processed shows. */
  lemma ExactAfterAppend(g: Graph, log: seq<Observation>, log': seq<Observation>, cfg: Config, r: nat, n: nat)
    requires n <= |log| && r <= |log| && log <= log'
    ensures GraphAt(g, log', cfg, r, n) <==> GraphAt(g, log, cfg, r, n)
  {
    hide TablesExact, LineageTablesExact, Derivations, Items;
    DerivationsPrefix(log, log', cfg, n);
    ItemsPrefix(log, log', r);
  }
}
