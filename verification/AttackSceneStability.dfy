/** Plans do not depend on work done beyond their boundary, and grow monotonically with it. */
module AttackSceneStability {
  import opened Domain
  import opened Ordering
  import opened Spans
  import opened RelationshipGraph
  import opened AttackScenePlanner
  import opened AttackSceneFacts

  /* ----- Two stores that agree up to a boundary ----- */

  // For one tenant, the stores hold the same rows at positions up to b (in g) and b' (in g').
  ghost predicate SameRows(g: Graph, b: nat, g': Graph, b': nat, tenant: string) {
    && (forall k: LineageKey | k.rid.tenant == tenant ::
          (k in g.lineage && g.lineage[k].seqNo <= b) <==> (k in g'.lineage && g'.lineage[k].seqNo <= b'))
    && (forall k: LineageKey | k.rid.tenant == tenant && k in g.lineage && g.lineage[k].seqNo <= b ::
          g.lineage[k] == g'.lineage[k])
    && (forall k: LineageKey | k.rid.tenant == tenant ::
          (k in g.derivations && g.derivations[k].triggerSeq <= b) <==>
          (k in g'.derivations && g'.derivations[k].triggerSeq <= b'))
    && (forall k: LineageKey | k.rid.tenant == tenant && k in g.derivations && g.derivations[k].triggerSeq <= b ::
          g.derivations[k] == g'.derivations[k]
          && forall sup :: SupportRow(k, sup) in g.supports <==> SupportRow(k, sup) in g'.supports)
  }

  lemma SameRowsSymmetric(g: Graph, b: nat, g': Graph, b': nat, tenant: string)
    requires SameRows(g, b, g', b', tenant)
    ensures SameRows(g', b', g, b, tenant)
  {
  }

  lemma SameJoining(g: Graph, b: nat, g': Graph, b': nat, tenant: string, u: RelationshipId)
    requires WellFormed(g) && WellFormed(g') && SameRows(g, b, g', b', tenant)
    ensures JoiningDerivations(g, tenant, u, b) == JoiningDerivations(g', tenant, u, b')
  {
    hide WellFormed, JoiningDerivations;
    forall k: LineageKey
      ensures k in JoiningDerivations(g, tenant, u, b) <==> k in JoiningDerivations(g', tenant, u, b')
    {
      JoiningMember(g, tenant, u, b, k);
      JoiningMember(g', tenant, u, b', k);
    }
  }

  lemma SameReachable(g: Graph, b: nat, g': Graph, b': nat, root: RelationshipId)
    requires WellFormed(g) && WellFormed(g') && SameRows(g, b, g', b', root.tenant)
    ensures Reachable(g, root, b) == Reachable(g', root, b')
  {
    hide WellFormed, JoiningDerivations, SameRows, Reachable;
    ReachableIsLeast(g, root, b);
    ReachableIsLeast(g', root, b');
    forall u: RelationshipId
      ensures JoiningDerivations(g, root.tenant, u, b) == JoiningDerivations(g', root.tenant, u, b')
    {
      SameJoining(g, b, g', b', root.tenant, u);
    }
    assert ClosedUnderJoining(g', root, b', Reachable(g, root, b));
    assert ClosedUnderJoining(g, root, b, Reachable(g', root, b'));
  }

  lemma SameRoots(g: Graph, b: nat, g': Graph, b': nat, root: RelationshipId)
    requires WellFormed(g) && WellFormed(g') && SameRows(g, b, g', b', root.tenant)
    ensures RootDerivations(g, root, b) == RootDerivations(g', root, b')
  {
    hide WellFormed, RootDerivations;
    forall k: LineageKey
      ensures k in RootDerivations(g, root, b) <==> k in RootDerivations(g', root, b')
    {
      RootMember(g, root, b, k);
      RootMember(g', root, b', k);
    }
  }

  lemma SameIsRoot(g: Graph, b: nat, g': Graph, b': nat, root: RelationshipId)
    requires WellFormed(g) && WellFormed(g') && SameRows(g, b, g', b', root.tenant)
    ensures IsRoot(g, root, b) <==> IsRoot(g', root, b')
  {
    hide WellFormed, SameRows;
    SameRoots(g, b, g', b', root);
    RootByDerivation(g, root, b);
    RootByDerivation(g', root, b');
  }

  // A derivation by COR-SEQ-001 up to the boundary is all it takes to be a root.
  lemma RootByDerivation(g: Graph, root: RelationshipId, b: nat)
    requires WellFormed(g)
    ensures IsRoot(g, root, b) <==> RootDerivations(g, root, b) != {}
  {
    hide SupportsWellFormed, PositionsWellFormed;
    if RootDerivations(g, root, b) != {} {
      var k :| k in RootDerivations(g, root, b);
      assert k in g.lineage && RowMatches(g.relationships[root], root);
    }
  }

  lemma SameRootSupports(g: Graph, b: nat, g': Graph, b': nat, root: RelationshipId)
    requires WellFormed(g) && WellFormed(g') && SameRows(g, b, g', b', root.tenant)
    ensures RootSupports(g, root, b) == RootSupports(g', root, b')
  {
    HalfRootSupports(g, b, g', b', root);
    SameRowsSymmetric(g, b, g', b', root.tenant);
    HalfRootSupports(g', b', g, b, root);
  }

  lemma HalfRootSupports(g: Graph, b: nat, g': Graph, b': nat, root: RelationshipId)
    requires WellFormed(g) && WellFormed(g') && SameRows(g, b, g', b', root.tenant)
    ensures RootSupports(g, root, b) <= RootSupports(g', root, b')
  {
    hide WellFormed, RootDerivations;
    SameRoots(g, b, g', b', root);
    forall sup | sup in RootSupports(g, root, b)
      ensures sup in RootSupports(g', root, b')
    {
      var k := RootSupportMember(g, root, b, sup);
      RootMember(g, root, b, k);
      assert SupportRow(k, sup) in g'.supports;
      assert sup in SupportsOf(g', k);
    }
  }

  lemma SameMembers(g: Graph, b: nat, g': Graph, b': nat, root: RelationshipId)
    requires WellFormed(g) && WellFormed(g') && SameRows(g, b, g', b', root.tenant)
    ensures Members(g, root, b) == Members(g', root, b')
    ensures Qualifying(g, root, b) == Qualifying(g', root, b')
  {
    hide WellFormed, SameRows, Reachable, RootSupports, JoiningDerivations;
    SameReachable(g, b, g', b', root);
    SameRootSupports(g, b, g', b', root);
    forall u: RelationshipId
      ensures JoiningDerivations(g, root.tenant, u, b) == JoiningDerivations(g', root.tenant, u, b')
    {
      SameJoining(g, b, g', b', root.tenant, u);
    }
  }

  lemma SameRowsOf(g: Graph, b: nat, g': Graph, b': nat, rid: RelationshipId)
    requires SameRows(g, b, g', b', rid.tenant)
    ensures RowsOf(g, rid, b) == RowsOf(g', rid, b') && PointsOf(g, rid, b) == PointsOf(g', rid, b')
  {
    assert RowsOf(g, rid, b) == RowsOf(g', rid, b');
  }

  lemma EndpointByIdentity(g: Graph, rid: RelationshipId, id: string)
    requires WellFormed(g) && rid in g.relationships
    ensures EndpointOf(g, rid, id) <==> (rid.source == id || rid.target == id)
  {
    hide DerivationsWellFormed, SupportsWellFormed, PositionsWellFormed;
  }

  // What a plan says about its members, seen through the rows of each.
  lemma SameMembership(g: Graph, b: nat, g': Graph, b': nat, ms: set<RelationshipId>, p: Plan)
    requires WellFormed(g) && WellFormed(g')
    requires forall rid | rid in ms :: rid in g.relationships && rid in g'.relationships
    requires forall rid | rid in ms :: RowsOf(g, rid, b) == RowsOf(g', rid, b') && PointsOf(g, rid, b) == PointsOf(g', rid, b')
    requires forall rid, k | rid in ms && k in RowsOf(g, rid, b) ::
      k in g.lineage && k in g'.lineage && g.lineage[k] == g'.lineage[k]
    requires SceneRelationships(g, ms, b, p.relationships) && SceneObservations(g, ms, b, p.observations)
    requires SceneEntities(g, ms, b, p.entities)
    ensures SceneRelationships(g', ms, b', p.relationships) && SceneObservations(g', ms, b', p.observations)
    ensures SceneEntities(g', ms, b', p.entities)
  {
    hide WellFormed, RowsOf, PointsOf, EndpointOf, Covers;
    forall rid, id | rid in ms
      ensures EndpointOf(g, rid, id) <==> EndpointOf(g', rid, id)
    {
      EndpointByIdentity(g, rid, id);
      EndpointByIdentity(g', rid, id);
    }
    forall id: string
      ensures EntityPoints(g, ms, b, id) == EntityPoints(g', ms, b', id)
    {
    }
  }

  lemma RowsInLineage(g: Graph, rid: RelationshipId, b: nat)
    ensures forall k | k in RowsOf(g, rid, b) :: k in g.lineage && g.lineage[k].seqNo <= b && k.rid == rid
  {
  }

  lemma SameTransitions(g: Graph, b: nat, g': Graph, b': nat, root: RelationshipId, p: Plan)
    requires WellFormed(g) && WellFormed(g') && SameRows(g, b, g', b', root.tenant)
    requires IsRoot(g, root, b) && TransitionsExact(g, root, b, p)
    ensures TransitionsExact(g', root, b', p)
  {
    hide WellFormed, Compromises, TransitionsExact, RootDerivations, IsRoot;
    SameRoots(g, b, g', b', root);
    RootShape(g, root, b);
    forall k | k in RootDerivations(g, root, b)
      ensures k in g'.derivations && g.derivations[k] == g'.derivations[k]
    {
      RootMember(g, root, b, k);
    }
    forall k: LineageKey
      ensures k in Compromises(g, root, b) <==> k in Compromises(g', root, b')
      ensures k in Compromises(g, root, b) ==> k in g'.derivations && g.derivations[k] == g'.derivations[k]
    {
      SameCompromise(g, b, g', b', root, k);
    }
    TransitionsTransfer(g, b, g', b', root, p);
  }

  lemma SameCompromise(g: Graph, b: nat, g': Graph, b': nat, root: RelationshipId, k: LineageKey)
    requires WellFormed(g) && WellFormed(g') && SameRows(g, b, g', b', root.tenant) && root.rtype == Exploited
    ensures k in Compromises(g, root, b) <==> k in Compromises(g', root, b')
    ensures k in Compromises(g, root, b) ==>
      k in g.derivations && k in g'.derivations && g.derivations[k] == g'.derivations[k]
  {
    hide Compromises, DerivationsWellFormed, LineageWellFormed, PositionsWellFormed;
    CompromiseIsDirect(g, root, b, k);
    CompromiseIsDirect(g', root, b', k);
    if k in Compromises(g, root, b) || k in Compromises(g', root, b') {
      assert k.rid.tenant == root.tenant by {
        if k in Compromises(g, root, b) {
          assert SupportRow(k, root) in g.supports;
        } else {
          assert SupportRow(k, root) in g'.supports;
        }
      }
    }
  }

  lemma TransitionsTransfer(g: Graph, b: nat, g': Graph, b': nat, root: RelationshipId, p: Plan)
    requires RootDerivations(g, root, b) == RootDerivations(g', root, b')
    requires Compromises(g, root, b) == Compromises(g', root, b')
    requires forall k | k in RootDerivations(g, root, b) + Compromises(g, root, b) ::
      k in g.derivations && k in g'.derivations && g.derivations[k] == g'.derivations[k]
    requires TransitionsExact(g, root, b, p)
    ensures TransitionsExact(g', root, b', p)
  {
    hide Qualifying, RootDerivations, StringLess;
    var rs, cs := RootDerivations(g, root, b), Compromises(g, root, b);
    var k :| IsFirst(g, rs, k) && TransitionsFrom(g, k, cs, p);
    assert IsFirst(g', rs, k);
    if cs != {} {
      var j :| IsFirst(g, cs, j) && p.transitions == Sorted(ObservedTransition(g, k), ConfirmedTransition(g, j));
      assert IsFirst(g', cs, j);
    }
  }

  /** Snapshot stability: if two handler-built stores hold the same rows up to the boundary, the
      root has a scene in both or neither, and the plans are the same, whatever else they hold. */
  lemma SnapshotStable(g: Graph, b: nat, g': Graph, b': nat, root: RelationshipId, p: Plan)
    requires WellFormed(g) && WellFormed(g') && SameRows(g, b, g', b', root.tenant)
    ensures IsRoot(g, root, b) <==> IsRoot(g', root, b')
    ensures IsRoot(g, root, b) && IsPlan(g, root, b, p) ==> IsPlan(g', root, b', p)
  {
    hide WellFormed, Members, SceneRelationships, SceneObservations, SceneEntities, TransitionsExact, RootDerivations,
      IsRootRow, RowsOf, PointsOf;
    SameIsRoot(g, b, g', b', root);
    if IsRoot(g, root, b) && IsPlan(g, root, b, p) {
      SameMembers(g, b, g', b', root);
      SameTransitions(g, b, g', b', root, p);
      var ms := Members(g, root, b);
      forall rid | rid in ms
        ensures rid in g.relationships && rid in g'.relationships
        ensures RowsOf(g, rid, b) == RowsOf(g', rid, b') && PointsOf(g, rid, b) == PointsOf(g', rid, b')
        ensures forall k | k in RowsOf(g, rid, b) :: k in g.lineage && k in g'.lineage && g.lineage[k] == g'.lineage[k]
      {
        MembersSound(g, root, b, rid);
        MembersSound(g', root, b', rid);
        SameRowsOf(g, b, g', b', rid);
        RowsInLineage(g, rid, b);
        RowsInLineage(g', rid, b');
      }
      SameMembership(g, b, g', b', ms, p);
    }
  }

  /* ----- Growth with the boundary ----- */

  lemma JoiningGrows(g: Graph, tenant: string, u: RelationshipId, b: nat, b': nat)
    requires b <= b'
    ensures JoiningDerivations(g, tenant, u, b) <= JoiningDerivations(g, tenant, u, b')
  {
  }

  lemma MembersGrow(g: Graph, root: RelationshipId, b: nat, b': nat)
    requires b <= b'
    ensures Members(g, root, b) <= Members(g, root, b')
    ensures RootDerivations(g, root, b) <= RootDerivations(g, root, b')
  {
    ReachableIsLeast(g, root, b);
    ReachableIsLeast(g, root, b');
    hide Reachable, JoiningDerivations, SupportsOf;
    forall u: RelationshipId
      ensures JoiningDerivations(g, root.tenant, u, b) <= JoiningDerivations(g, root.tenant, u, b')
    {
      JoiningGrows(g, root.tenant, u, b, b');
    }
    assert ClosedUnderJoining(g, root, b, Reachable(g, root, b'));
  }

  lemma ObservationsGrow(g: Graph, ms: set<RelationshipId>, ms': set<RelationshipId>, b: nat, b': nat,
                         m: map<string, Point>, m': map<string, Point>)
    requires ms <= ms' && b <= b'
    requires SceneObservations(g, ms, b, m) && SceneObservations(g, ms', b', m')
    ensures forall o | o in m :: o in m' && m'[o] == m[o]
  {
    forall o | o in m
      ensures o in m' && m'[o] == m[o]
    {
      var rid, k :| rid in ms && k in RowsOf(g, rid, b) && k.obsId == o;
      assert k in RowsOf(g, rid, b');
    }
  }

  lemma EntitiesGrow(g: Graph, ms: set<RelationshipId>, ms': set<RelationshipId>, b: nat, b': nat,
                     m: map<string, Span>, m': map<string, Span>)
    requires ms <= ms' && SceneEntities(g, ms, b, m) && SceneEntities(g, ms', b', m')
    ensures m.Keys <= m'.Keys
  {
    hide EndpointOf, PointsOf;
    EntityKeysOnly(g, ms, b, m);
  }

  lemma FirstStays(g: Graph, ks: set<LineageKey>, ks': set<LineageKey>, b: nat, k: LineageKey, j: LineageKey)
    requires ks <= ks' <= g.derivations.Keys
    requires forall q | q in ks' :: q in ks <==> g.derivations[q].triggerSeq <= b
    requires IsFirst(g, ks, k) && IsFirst(g, ks', j)
    ensures g.derivations[k].triggerSeq == g.derivations[j].triggerSeq && k.obsId == j.obsId
  {
    hide StringLess;
    assert IsFirst(g, ks', k);
    FirstUnique(g, ks', k, j);
  }

  /** Transitions are never revised: those of an earlier boundary are a prefix of those of a later
      one, and the state does not regress. */
  lemma TransitionsGrow(g: Graph, root: RelationshipId, b: nat, b': nat, p: Plan, p': Plan)
    requires WellFormed(g) && IsRoot(g, root, b) && b <= b'
    requires TransitionsExact(g, root, b, p) && TransitionsExact(g, root, b', p')
    ensures p.transitions <= p'.transitions
    ensures p.state == ConfirmedState ==> p'.state == ConfirmedState
  {
    hide WellFormed, Qualifying, Before, Compromises, RootDerivations, IsRoot;
    RootShape(g, root, b);
    LaterRoot(g, root, b, b');
    RootsByBoundary(g, root, b, b');
    CompromisesByBoundary(g, root, b, b');
    var rs, cs := RootDerivations(g, root, b), Compromises(g, root, b);
    var rs', cs' := RootDerivations(g, root, b'), Compromises(g, root, b');
    var k :| IsFirst(g, rs, k) && TransitionsFrom(g, k, cs, p);
    var l :| IsFirst(g, rs', l) && TransitionsFrom(g, l, cs', p');
    FirstStays(g, rs, rs', b, k, l);
    if cs' != {} {
      var j :| IsFirst(g, cs', j) && p'.transitions == Sorted(ObservedTransition(g, l), ConfirmedTransition(g, j));
      RootPrecedesCompromise(g, root, b', l, j);
      if cs != {} {
        var i :| IsFirst(g, cs, i) && p.transitions == Sorted(ObservedTransition(g, k), ConfirmedTransition(g, i));
        RootPrecedesCompromise(g, root, b, k, i);
        FirstStays(g, cs, cs', b, i, j);
      }
    }
  }

  lemma LaterRoot(g: Graph, root: RelationshipId, b: nat, b': nat)
    requires IsRoot(g, root, b) && b <= b'
    ensures IsRoot(g, root, b')
  {
    var k :| k in RootDerivations(g, root, b);
    assert k in RootDerivations(g, root, b');
  }

  lemma RootsByBoundary(g: Graph, root: RelationshipId, b: nat, b': nat)
    requires b <= b'
    ensures var rs, rs' := RootDerivations(g, root, b), RootDerivations(g, root, b');
      rs <= rs' <= g.derivations.Keys && forall q | q in rs' :: q in rs <==> g.derivations[q].triggerSeq <= b
  {
  }

  lemma CompromisesByBoundary(g: Graph, root: RelationshipId, b: nat, b': nat)
    requires WellFormed(g) && root.rtype == Exploited && b <= b'
    ensures var cs, cs' := Compromises(g, root, b), Compromises(g, root, b');
      cs <= cs' <= g.derivations.Keys && forall q | q in cs' :: q in cs <==> g.derivations[q].triggerSeq <= b
  {
    hide WellFormed, Compromises;
    forall q: LineageKey
      ensures q in Compromises(g, root, b) <==> q in Compromises(g, root, b') && q in g.derivations && g.derivations[q].triggerSeq <= b
    {
      CompromiseIsDirect(g, root, b, q);
      CompromiseIsDirect(g, root, b', q);
    }
    forall q | q in Compromises(g, root, b')
      ensures q in g.derivations
    {
      CompromiseIsDirect(g, root, b', q);
    }
  }

  // Everything an earlier plan lists is in a later one; observations and transitions unchanged.
  ghost predicate Grows(p: Plan, p': Plan) {
    && p.root == p'.root
    && p.relationships.Keys <= p'.relationships.Keys
    && p.entities.Keys <= p'.entities.Keys
    && (forall o | o in p.observations :: o in p'.observations && p'.observations[o] == p.observations[o])
    && p.transitions <= p'.transitions
    && (p.state == ConfirmedState ==> p'.state == ConfirmedState)
  }

  /** Plans only grow with the boundary. */
  lemma PlansGrow(g: Graph, root: RelationshipId, b: nat, b': nat, p: Plan, p': Plan)
    requires WellFormed(g) && IsRoot(g, root, b) && b <= b'
    requires IsPlan(g, root, b, p) && IsPlan(g, root, b', p')
    ensures Grows(p, p')
  {
    hide WellFormed, Members, SceneObservations, SceneEntities, TransitionsExact, IsRoot, Covers, RootDerivations;
    MembersGrow(g, root, b, b');
    ObservationsGrow(g, Members(g, root, b), Members(g, root, b'), b, b', p.observations, p'.observations);
    EntitiesGrow(g, Members(g, root, b), Members(g, root, b'), b, b', p.entities, p'.entities);
    TransitionsGrow(g, root, b, b', p, p');
  }

  /* ----- Positions of other tenants ----- */

  /** Advancing the boundary past another tenant's observation changes none of a tenant's plans. */
  lemma OtherTenantQuiet(g: Graph, b: nat, tenant: string)
    requires WellFormed(g)
    requires forall k | k in g.lineage && k.rid.tenant == tenant :: g.lineage[k].seqNo != b + 1
    ensures SameRows(g, b, g, b + 1, tenant)
  {
    hide LineageWellFormed, SupportsWellFormed, PositionsWellFormed;
  }
}
