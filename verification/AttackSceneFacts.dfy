/** What the planner's answers are like on a graph the handlers built: no validation can fail, the
    plan does not depend on later work, and it only grows with the boundary. */
module AttackSceneFacts {
  import opened Domain
  import opened Ordering
  import opened Spans
  import opened RelationshipGraph
  import opened CorrelationRules
  import opened AttackScenePlanner
  import EntityProjection

  /* ----- The invariants of a handler-built graph the planner relies on ----- */

  predicate RowMatches(row: RelationshipRow, rid: RelationshipId) {
    && row.rtype == rid.rtype && row.provenance == rid.provenance && row.rule == rid.rule
    && row.sourceId == rid.source && row.targetId == rid.target
  }

  // What a rule's support has in common with the relationship it derives.
  predicate ChainLink(rule: RuleId, rid: RelationshipId, sup: RelationshipId) {
    && sup.tenant == rid.tenant
    && match rule
       case CorSeq001 => sup.rtype == HasVulnerability
       case CorSeq002 => sup.rtype == Exploited && sup.source == rid.source && sup.target == rid.target
       case CorSeq003 => sup.rtype == Compromised && sup.target == rid.source
  }

  ghost predicate DerivationsWellFormed(g: Graph) {
    forall k | k in g.derivations ::
      && TriggerSound(g, k)
      && k.rid.provenance == Deterministic
      && k.rid.rule == Some(g.derivations[k].rule)
      && k.rid.rtype == Output(g.derivations[k].rule)
  }

  ghost predicate LineageWellFormed(g: Graph) {
    && (forall k | k in g.lineage :: k.rid in g.relationships)
    && (forall k | k in g.lineage && k.rid.provenance == Deterministic :: k in g.derivations)
    && (forall rid | rid in g.relationships :: RowMatches(g.relationships[rid], rid))
  }

  ghost predicate SupportsWellFormed(g: Graph) {
    forall s | s in g.supports ::
      && s.key in g.derivations
      && HasLineageBefore(g, s.support, g.derivations[s.key].triggerSeq)
      && ChainLink(g.derivations[s.key].rule, s.key.rid, s.support)
  }

  // One position is one observation, within a tenant and across tenants.
  ghost predicate PositionsWellFormed(g: Graph) {
    && (forall j, k | j in g.lineage && k in g.lineage && j.rid.tenant == k.rid.tenant && j.obsId == k.obsId ::
          g.lineage[j] == g.lineage[k])
    && (forall j, k | j in g.lineage && k in g.lineage && g.lineage[j].seqNo == g.lineage[k].seqNo ::
          j.rid.tenant == k.rid.tenant)
  }

  ghost predicate WellFormed(g: Graph) {
    DerivationsWellFormed(g) && LineageWellFormed(g) && SupportsWellFormed(g) && PositionsWellFormed(g)
  }

  // The entity projector has both endpoints of everything recorded up to b.
  ghost predicate EntitiesCover(g: Graph, ents: EntityProjection.Entities, b: nat) {
    forall k | k in g.lineage && g.lineage[k].seqNo <= b ::
      && EntityProjection.EntityKey(k.rid.tenant, k.rid.source) in ents
      && EntityProjection.EntityKey(k.rid.tenant, k.rid.target) in ents
  }

  /* ----- Reachability on such a graph ----- */

  lemma ReachableStep(g: Graph, root: RelationshipId, b: nat, rid: RelationshipId)
    requires rid in Reachable(g, root, b) && rid != root
    ensures exists u, k :: u in Reachable(g, root, b) && k in JoiningDerivations(g, root.tenant, u, b) && k.rid == rid
  {
    hide JoiningDerivations;
    ReachableIsLeast(g, root, b);
    var least := Reachable(g, root, b);
    var s := {root} + set u, k | u in least && k in JoiningDerivations(g, root.tenant, u, b) :: k.rid;
    assert s <= least;
    assert ClosedUnderJoining(g, root, b, s);
    assert rid in s;
  }

  lemma JoinedShape(g: Graph, root: RelationshipId, b: nat, rid: RelationshipId) returns (k: LineageKey)
    requires WellFormed(g) && rid in Reachable(g, root, b) && rid != root
    ensures rid.rtype == Compromised || rid.rtype == MovedLaterallyTo
    ensures k in g.derivations && k.rid == rid && g.derivations[k].triggerSeq <= b && rid.tenant == root.tenant
    ensures k in Qualifying(g, root, b)
  {
    hide SupportsWellFormed, PositionsWellFormed, ReverseDerivations;
    ReachableStep(g, root, b, rid);
    hide Reachable;
    var u, j :| u in Reachable(g, root, b) && j in JoiningDerivations(g, root.tenant, u, b) && j.rid == rid;
    k := j;
    JoiningShape(g, root.tenant, u, b, k);
  }

  lemma JoiningShape(g: Graph, tenant: string, u: RelationshipId, b: nat, k: LineageKey)
    requires WellFormed(g) && k in JoiningDerivations(g, tenant, u, b)
    ensures k.rid.rtype == Compromised || k.rid.rtype == MovedLaterallyTo
    ensures k.rid.tenant == tenant && g.derivations[k].triggerSeq <= b && SupportRow(k, u) in g.supports
  {
    hide SupportsWellFormed, PositionsWellFormed;
  }

  // Joining is a property of the rule alone.
  lemma JoiningMember(g: Graph, tenant: string, u: RelationshipId, b: nat, k: LineageKey)
    requires WellFormed(g)
    ensures k in JoiningDerivations(g, tenant, u, b) <==>
      && k in g.derivations && k.rid.tenant == tenant && g.derivations[k].triggerSeq <= b
      && SupportRow(k, u) in g.supports && g.derivations[k].rule != CorSeq001
  {
    hide SupportsWellFormed, PositionsWellFormed;
  }

  /** A compromise qualifies through the root itself, never through another member: this is why a
      later joining lineage cannot bring in an older compromise. */
  lemma CompromiseIsDirect(g: Graph, root: RelationshipId, b: nat, k: LineageKey)
    requires WellFormed(g) && root.rtype == Exploited
    ensures k in Compromises(g, root, b) <==>
      && k in g.derivations && g.derivations[k].rule == CorSeq002 && g.derivations[k].triggerSeq <= b
      && SupportRow(k, root) in g.supports
  {
    hide Reachable, JoiningDerivations, DerivationsWellFormed, LineageWellFormed, PositionsWellFormed;
    if k in Compromises(g, root, b) {
      var u :| u in Reachable(g, root, b) && k in JoiningDerivations(g, root.tenant, u, b);
      JoiningMember(g, root.tenant, u, b, k);
      assert SupportRow(k, u) in g.supports;
      if u != root {
        var _ := JoinedShape(g, root, b, u);
      }
    } else if k in g.derivations && g.derivations[k].rule == CorSeq002 && g.derivations[k].triggerSeq <= b
              && SupportRow(k, root) in g.supports {
      assert ChainLink(CorSeq002, k.rid, root);
      JoiningMember(g, root.tenant, root, b, k);
      ReachableIsLeast(g, root, b);
    }
  }

  /** The shape of every scene: what joins it is the compromise of the exploited entity by the
      exploiting one, or a lateral move out of the exploited entity. */
  lemma SceneShape(g: Graph, root: RelationshipId, b: nat, rid: RelationshipId)
    requires WellFormed(g) && root.rtype == Exploited
    requires rid in Reachable(g, root, b) && rid != root
    ensures rid.tenant == root.tenant
    ensures (rid.rtype == Compromised && rid.source == root.source && rid.target == root.target)
         || (rid.rtype == MovedLaterallyTo && rid.source == root.target)
    decreases rid.rtype == MovedLaterallyTo
  {
    hide Reachable, LineageWellFormed, PositionsWellFormed, JoiningDerivations;
    ReachableStep(g, root, b, rid);
    var u, k :| u in Reachable(g, root, b) && k in JoiningDerivations(g, root.tenant, u, b) && k.rid == rid;
    JoiningMember(g, root.tenant, u, b, k);
    assert SupportRow(k, u) in g.supports;
    if u != root {
      var _ := JoinedShape(g, root, b, u);
      if u.rtype == Compromised {
        SceneShape(g, root, b, u);
      }
    }
  }

  lemma RootShape(g: Graph, root: RelationshipId, b: nat)
    requires WellFormed(g) && IsRoot(g, root, b)
    ensures root.rtype == Exploited && root.provenance == Deterministic && root.rule == Some(CorSeq001)
  {
    hide DerivationsWellFormed, SupportsWellFormed, PositionsWellFormed, RootDerivations;
  }

  lemma RootMember(g: Graph, root: RelationshipId, b: nat, k: LineageKey)
    requires WellFormed(g)
    ensures k in RootDerivations(g, root, b) <==>
      k in g.derivations && k.rid == root && root.rule == Some(CorSeq001) && g.derivations[k].triggerSeq <= b
  {
    hide LineageWellFormed, SupportsWellFormed, PositionsWellFormed;
  }

  lemma RootSupportMember(g: Graph, root: RelationshipId, b: nat, sup: RelationshipId) returns (k: LineageKey)
    requires WellFormed(g) && sup in RootSupports(g, root, b)
    ensures k in RootDerivations(g, root, b) && SupportRow(k, sup) in g.supports
    ensures sup.tenant == root.tenant && sup.rtype == HasVulnerability
    ensures k in g.derivations && HasLineageBefore(g, sup, g.derivations[k].triggerSeq)
  {
    hide DerivationsWellFormed, LineageWellFormed, PositionsWellFormed, HasLineageBefore;
    k :| k in RootDerivations(g, root, b) && sup in SupportsOf(g, k);
    var s :| s in g.supports && s.key == k && s.support == sup;
  }

  /* ----- Gate soundness ----- */

  lemma DerivationsSound(g: Graph, k: LineageKey)
    requires WellFormed(g) && k in g.derivations
    ensures DerivationSound(g, k)
  {
    hide LineageWellFormed, PositionsWellFormed, HasLineageBefore;
    forall sup | sup in SupportsOf(g, k)
      ensures HasLineageBefore(g, sup, g.derivations[k].triggerSeq)
    {
      var s :| s in g.supports && s.key == k && s.support == sup;
    }
  }

  lemma DerivedMemberSound(g: Graph, k: LineageKey, b: nat)
    requires WellFormed(g) && k in g.derivations && g.derivations[k].triggerSeq <= b
    ensures MemberSound(g, k.rid, b)
  {
    hide SupportsWellFormed, PositionsWellFormed;
    assert k in RowsOf(g, k.rid, b);
  }

  lemma SupportMemberSound(g: Graph, sup: RelationshipId, q: nat, b: nat)
    requires WellFormed(g) && HasLineageBefore(g, sup, q) && q <= b
    ensures MemberSound(g, sup, b)
  {
    hide SupportsWellFormed, PositionsWellFormed, DerivationsWellFormed;
    var k :| k in g.lineage && k.rid == sup && g.lineage[k].seqNo < q;
    assert k in RowsOf(g, sup, b);
  }

  lemma MembersSound(g: Graph, root: RelationshipId, b: nat, rid: RelationshipId)
    requires WellFormed(g) && IsRoot(g, root, b) && rid in Members(g, root, b)
    ensures MemberSound(g, rid, b) && rid.tenant == root.tenant
  {
    hide WellFormed, MemberSound, Reachable, RootSupports;
    if rid == root {
      var k :| k in RootDerivations(g, root, b);
      DerivedMemberSound(g, k, b);
    } else if rid in Reachable(g, root, b) {
      var k := JoinedShape(g, root, b, rid);
      DerivedMemberSound(g, k, b);
    } else {
      var k := RootSupportMember(g, root, b, rid);
      SupportMemberSound(g, rid, g.derivations[k].triggerSeq, b);
    }
  }

  lemma MembersConsistent(g: Graph, root: RelationshipId, b: nat)
    requires WellFormed(g) && IsRoot(g, root, b)
    ensures ObservationsConsistent(g, Members(g, root, b), b)
  {
    hide Members, DerivationsWellFormed, LineageWellFormed, SupportsWellFormed, IsRoot;
    var ms := Members(g, root, b);
    forall rid | rid in ms
      ensures rid.tenant == root.tenant
    {
      MembersSound(g, root, b, rid);
    }
  }

  lemma MembersPresent(g: Graph, ents: EntityProjection.Entities, root: RelationshipId, b: nat)
    requires WellFormed(g) && EntitiesCover(g, ents, b) && IsRoot(g, root, b)
    ensures EndpointsPresent(g, ents, root.tenant, Members(g, root, b))
  {
    hide Members, DerivationsWellFormed, SupportsWellFormed, PositionsWellFormed, IsRoot;
    forall rid, id | rid in Members(g, root, b) && EndpointOf(g, rid, id)
      ensures EntityProjection.EntityKey(root.tenant, id) in ents
    {
      MembersSound(g, root, b, rid);
      var k :| k in RowsOf(g, rid, b);
    }
  }

  /** Once the dependencies cover the boundary, none of the planner's validations can fail. */
  lemma GateSound(g: Graph, ents: EntityProjection.Entities, root: RelationshipId, b: nat)
    requires WellFormed(g) && EntitiesCover(g, ents, b) && IsRoot(g, root, b)
    ensures Plannable(g, ents, root, b)
  {
    MembersConsistent(g, root, b);
    MembersPresent(g, ents, root, b);
    hide WellFormed, Members, MemberSound, DerivationSound, ObservationsConsistent, EndpointsPresent, Reachable,
      JoiningDerivations, IsRoot;
    forall k | k in RootDerivations(g, root, b)
      ensures DerivationSound(g, k)
    {
      DerivationsSound(g, k);
    }
    forall k | k in Qualifying(g, root, b)
      ensures JoiningSound(g, k)
    {
      DerivationsSound(g, k);
      RuleMatches(g, k);
    }
    forall rid | rid in Members(g, root, b)
      ensures MemberSound(g, rid, b)
    {
      MembersSound(g, root, b, rid);
    }
  }

  lemma RuleMatches(g: Graph, k: LineageKey)
    requires WellFormed(g) && k in g.derivations
    ensures k.rid in g.relationships && Some(g.derivations[k].rule) == g.relationships[k.rid].rule
  {
    hide SupportsWellFormed, PositionsWellFormed;
  }

  /* ----- Transitions ----- */

  lemma RootPrecedesCompromise(g: Graph, root: RelationshipId, b: nat, k: LineageKey, j: LineageKey)
    requires WellFormed(g) && IsRoot(g, root, b)
    requires IsFirst(g, RootDerivations(g, root, b), k) && j in Compromises(g, root, b)
    ensures g.derivations[k].triggerSeq < g.derivations[j].triggerSeq
  {
    hide Compromises, LineageWellFormed, PositionsWellFormed, RootDerivations, IsRoot;
    RootShape(g, root, b);
    CompromiseIsDirect(g, root, b, j);
    var l :| l in g.lineage && l.rid == root && g.lineage[l].seqNo < g.derivations[j].triggerSeq;
    DerivedLineage(g, l);
    RootMember(g, root, b, l);
  }

  lemma DerivedLineage(g: Graph, l: LineageKey)
    requires WellFormed(g) && l in g.lineage && l.rid.provenance == Deterministic
    ensures l in g.derivations && g.derivations[l].triggerSeq == g.lineage[l].seqNo
  {
    hide SupportsWellFormed, PositionsWellFormed;
  }

  /** A scene's transitions are the chain potential, observed, confirmed with strictly increasing
      positions, and its state is where the chain ends. */
  lemma TransitionChain(g: Graph, root: RelationshipId, b: nat, p: Plan)
    requires WellFormed(g) && IsRoot(g, root, b) && TransitionsExact(g, root, b, p)
    ensures 1 <= |p.transitions| <= 2
    ensures p.transitions[0].from == PotentialState && p.transitions[0].to == ObservedState
    ensures |p.transitions| == 2 ==>
      && p.transitions[1].from == ObservedState && p.transitions[1].to == ConfirmedState
      && p.transitions[0].seqNo < p.transitions[1].seqNo
    ensures p.state == p.transitions[|p.transitions| - 1].to
    ensures forall t | t in p.transitions :: t.seqNo <= b
  {
    hide WellFormed, Qualifying, IsRoot;
    var cs := Compromises(g, root, b);
    var k :| IsFirst(g, RootDerivations(g, root, b), k) && TransitionsFrom(g, k, cs, p);
    if cs != {} {
      var j :| IsFirst(g, cs, j) && p.transitions == Sorted(ObservedTransition(g, k), ConfirmedTransition(g, j));
      RootPrecedesCompromise(g, root, b, k, j);
      CompromiseBounded(g, root, b, j);
    }
  }

  // Whatever joined a scene brought a qualifying compromise: itself, or what it builds on.
  lemma JoinedCompromise(g: Graph, root: RelationshipId, b: nat, rid: RelationshipId)
    requires WellFormed(g) && root.rtype == Exploited && rid in Reachable(g, root, b) && rid != root
    ensures Compromises(g, root, b) != {}
  {
    hide Reachable, LineageWellFormed, PositionsWellFormed, JoiningDerivations, Qualifying;
    if rid.rtype == Compromised {
      var k := JoinedShape(g, root, b, rid);
      assert k in Compromises(g, root, b);
    } else {
      ReachableStep(g, root, b, rid);
      var u, k :| u in Reachable(g, root, b) && k in JoiningDerivations(g, root.tenant, u, b) && k.rid == rid;
      JoiningMember(g, root.tenant, u, b, k);
      JoiningShape(g, root.tenant, u, b, k);
      assert SupportRow(k, u) in g.supports && u.rtype == Compromised;
      var j := JoinedShape(g, root, b, u);
      assert j in Compromises(g, root, b);
    }
  }

  lemma CompromiseJoins(g: Graph, root: RelationshipId, b: nat, k: LineageKey)
    requires WellFormed(g) && root.rtype == Exploited && k in Compromises(g, root, b)
    ensures k.rid in Reachable(g, root, b) && k.rid != root
  {
    hide LineageWellFormed, PositionsWellFormed, JoiningDerivations, Reachable;
    ReachableIsLeast(g, root, b);
    var u :| u in Reachable(g, root, b) && k in JoiningDerivations(g, root.tenant, u, b);
    JoiningShape(g, root.tenant, u, b, k);
  }

  /** A scene is confirmed if and only if anything has joined its root; in particular a scene with a
      lateral move is, although a lateral move makes no transition. */
  lemma ConfirmedIffJoined(g: Graph, root: RelationshipId, b: nat, p: Plan)
    requires WellFormed(g) && IsRoot(g, root, b) && TransitionsExact(g, root, b, p)
    ensures p.state == ConfirmedState <==> exists rid :: rid in Reachable(g, root, b) && rid != root
  {
    hide WellFormed, Reachable, Compromises, IsRoot;
    RootShape(g, root, b);
    var cs := Compromises(g, root, b);
    if k :| k in cs {
      CompromiseJoins(g, root, b, k);
    }
    if rid :| rid in Reachable(g, root, b) && rid != root {
      JoinedCompromise(g, root, b, rid);
    }
  }

  lemma CompromiseBounded(g: Graph, root: RelationshipId, b: nat, j: LineageKey)
    requires j in Compromises(g, root, b)
    ensures j in g.derivations && g.derivations[j].triggerSeq <= b
  {
    hide Reachable;
  }

  /* ----- A plan is determined by its inputs ----- */

  lemma FirstUnique(g: Graph, ks: set<LineageKey>, j: LineageKey, k: LineageKey)
    requires ks <= g.derivations.Keys && IsFirst(g, ks, j) && IsFirst(g, ks, k)
    ensures g.derivations[j].triggerSeq == g.derivations[k].triggerSeq && j.obsId == k.obsId
  {
    StringTotal(j.obsId, k.obsId);
  }

  lemma TransitionsUnique(g: Graph, root: RelationshipId, b: nat, p: Plan, q: Plan)
    requires TransitionsExact(g, root, b, p) && TransitionsExact(g, root, b, q)
    ensures p.transitions == q.transitions && p.state == q.state
  {
    hide StringLess, Qualifying, Before;
    var rs, cs := RootDerivations(g, root, b), Compromises(g, root, b);
    var k :| IsFirst(g, rs, k) && TransitionsFrom(g, k, cs, p);
    var l :| IsFirst(g, rs, l) && TransitionsFrom(g, l, cs, q);
    FirstUnique(g, rs, k, l);
    if cs != {} {
      var i :| IsFirst(g, cs, i) && p.transitions == Sorted(ObservedTransition(g, k), ConfirmedTransition(g, i));
      var j :| IsFirst(g, cs, j) && q.transitions == Sorted(ObservedTransition(g, l), ConfirmedTransition(g, j));
      FirstUnique(g, cs, i, j);
    }
  }

  lemma MembershipUnique(g: Graph, ms: set<RelationshipId>, b: nat, p: Plan, q: Plan)
    requires SceneRelationships(g, ms, b, p.relationships) && SceneRelationships(g, ms, b, q.relationships)
    requires SceneObservations(g, ms, b, p.observations) && SceneObservations(g, ms, b, q.observations)
    requires SceneEntities(g, ms, b, p.entities) && SceneEntities(g, ms, b, q.entities)
    ensures p.relationships == q.relationships && p.observations == q.observations && p.entities == q.entities
  {
    hide RowsOf, PointsOf, Covers, EndpointOf;
    forall rid | rid in ms
      ensures p.relationships[rid] == q.relationships[rid]
    {
      CoversUnique(p.relationships[rid], q.relationships[rid], PointsOf(g, rid, b));
    }
    ObservationsUnique(g, ms, b, p.observations, q.observations);
    EntitySpansUnique(g, ms, b, p.entities, q.entities);
  }

  lemma ObservationsUnique(g: Graph, ms: set<RelationshipId>, b: nat, m: map<string, Point>, m': map<string, Point>)
    requires SceneObservations(g, ms, b, m) && SceneObservations(g, ms, b, m')
    ensures m == m'
  {
    hide RowsOf;
    forall o | o in m || o in m'
      ensures o in m && o in m' && m[o] == m'[o]
    {
      var rid, k :| rid in ms && k in RowsOf(g, rid, b) && k.obsId == o;
    }
  }

  lemma EntitySpansUnique(g: Graph, ms: set<RelationshipId>, b: nat, m: map<string, Span>, m': map<string, Span>)
    requires SceneEntities(g, ms, b, m) && SceneEntities(g, ms, b, m')
    ensures m == m'
  {
    hide PointsOf, EndpointOf, EntityPoints;
    EntityKeysOnly(g, ms, b, m);
    EntityKeysOnly(g, ms, b, m');
    forall id | id in m || id in m'
      ensures id in m && id in m' && m[id] == m'[id]
    {
      CoversUnique(m[id], m'[id], EntityPoints(g, ms, b, id));
    }
  }

  lemma EntityKeysOnly(g: Graph, ms: set<RelationshipId>, b: nat, m: map<string, Span>)
    requires SceneEntities(g, ms, b, m)
    ensures forall id | id in m :: exists rid :: rid in ms && EndpointOf(g, rid, id)
  {
    hide PointsOf, EndpointOf;
    forall id | id in m
      ensures exists rid :: rid in ms && EndpointOf(g, rid, id)
    {
      var p :| p in EntityPoints(g, ms, b, id);
    }
  }

  /** For one store, root and boundary there is one plan. */
  lemma PlanUnique(g: Graph, root: RelationshipId, b: nat, p: Plan, q: Plan)
    requires IsPlan(g, root, b, p) && IsPlan(g, root, b, q)
    ensures p == q
  {
    hide Members, SceneRelationships, SceneObservations, SceneEntities, TransitionsExact, Covers;
    MembershipUnique(g, Members(g, root, b), b, p, q);
    CoversUnique(p.span, q.span, p.observations.Values);
    TransitionsUnique(g, root, b, p, q);
  }
}
