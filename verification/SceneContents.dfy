/** What a plan lists, read off the stored rows. */
module SceneContents {
  import opened Domain
  import opened Ordering
  import opened Spans
  import opened RelationshipGraph
  import opened AttackScenePlanner
  import opened AttackSceneFacts
  import opened AttackSceneStability
  import EntityProjection

  /* ----- Membership ----- */

  // By some row up to b, the relationship rid was derived, as a compromise or a lateral move, from u.
  ghost predicate DerivedFrom(g: Graph, tenant: string, u: RelationshipId, b: nat, rid: RelationshipId) {
    && rid in g.relationships && rid.tenant == tenant
    && g.relationships[rid].provenance == Deterministic
    && (|| (g.relationships[rid].rule == Some(CorSeq002) && g.relationships[rid].rtype == Compromised)
        || (g.relationships[rid].rule == Some(CorSeq003) && g.relationships[rid].rtype == MovedLaterallyTo))
    && exists k :: k in g.derivations && k.rid == rid && g.derivations[k].triggerSeq <= b && SupportRow(k, u) in g.supports
  }

  // s holds the root and whatever is derived from what it holds.
  ghost predicate Complete(g: Graph, root: RelationshipId, b: nat, s: set<RelationshipId>) {
    root in s && forall u, rid | u in s && DerivedFrom(g, root.tenant, u, b, rid) :: rid in s
  }

  // rid supports some exploit derivation of the root up to b.
  ghost predicate SupportsRoot(g: Graph, root: RelationshipId, b: nat, rid: RelationshipId) {
    exists k :: k in g.derivations && k.rid == root && g.derivations[k].rule == CorSeq001 && g.derivations[k].triggerSeq <= b
                && SupportRow(k, rid) in g.supports
  }

  lemma JoinsIsDerived(g: Graph, tenant: string, u: RelationshipId, b: nat, rid: RelationshipId)
    ensures DerivedFrom(g, tenant, u, b, rid) <==> exists k :: k in JoiningDerivations(g, tenant, u, b) && k.rid == rid
  {
    if k :| k in g.derivations && k.rid == rid && g.derivations[k].triggerSeq <= b && SupportRow(k, u) in g.supports {
      if DerivedFrom(g, tenant, u, b, rid) {
        assert k in JoiningDerivations(g, tenant, u, b);
      }
    }
  }

  lemma CompleteIsClosed(g: Graph, root: RelationshipId, b: nat, s: set<RelationshipId>)
    ensures Complete(g, root, b, s) <==> ClosedUnderJoining(g, root, b, s)
  {
    hide DerivedFrom, JoiningDerivations;
    forall u: RelationshipId, rid: RelationshipId
      ensures DerivedFrom(g, root.tenant, u, b, rid) <==> exists k :: k in JoiningDerivations(g, root.tenant, u, b) && k.rid == rid
    {
      JoinsIsDerived(g, root.tenant, u, b, rid);
    }
  }

  /** A relationship is in a plan if and only if it is in every complete set, the root's among them, or
      supports an exploit derivation of the root up to the boundary. */
  lemma MembersRead(g: Graph, root: RelationshipId, b: nat, p: Plan, rid: RelationshipId)
    requires IsPlan(g, root, b, p)
    ensures rid in p.relationships <==>
      || rid == root
      || (forall s: set<RelationshipId> | Complete(g, root, b, s) :: rid in s)
      || SupportsRoot(g, root, b, rid)
  {
    hide SceneObservations, SceneEntities, TransitionsExact, Covers, DerivedFrom, JoiningDerivations;
    ReachableIsLeast(g, root, b);
    forall s: set<RelationshipId>
      ensures Complete(g, root, b, s) <==> ClosedUnderJoining(g, root, b, s)
    {
      CompleteIsClosed(g, root, b, s);
    }
    hide Complete, ClosedUnderJoining;
    assert rid in Reachable(g, root, b) <==> forall s: set<RelationshipId> | Complete(g, root, b, s) :: rid in s by {
      EveryComplete(g, root, b, rid);
    }
    assert rid in RootSupports(g, root, b) <==> SupportsRoot(g, root, b, rid) by { SupportsRead(g, root, b, rid); }
    assert root in Reachable(g, root, b) by { RootIsComplete(g, root, b); }
  }

  lemma RootIsComplete(g: Graph, root: RelationshipId, b: nat)
    ensures root in Reachable(g, root, b)
  {
    ReachableIsLeast(g, root, b);
  }

  lemma EveryComplete(g: Graph, root: RelationshipId, b: nat, rid: RelationshipId)
    ensures rid in Reachable(g, root, b) <==> forall s: set<RelationshipId> | Complete(g, root, b, s) :: rid in s
  {
    hide Complete, ClosedUnderJoining, Reachable;
    ReachableIsLeast(g, root, b);
    CompleteIsClosed(g, root, b, Reachable(g, root, b));
    forall s: set<RelationshipId> | Complete(g, root, b, s)
      ensures Reachable(g, root, b) <= s
    {
      CompleteIsClosed(g, root, b, s);
    }
  }

  lemma SupportsRead(g: Graph, root: RelationshipId, b: nat, rid: RelationshipId)
    ensures rid in RootSupports(g, root, b) <==> SupportsRoot(g, root, b, rid)
  {
    if k :| k in g.derivations && k.rid == root && g.derivations[k].rule == CorSeq001 && g.derivations[k].triggerSeq <= b
            && SupportRow(k, rid) in g.supports {
      assert k in RootDerivations(g, root, b) && rid in SupportsOf(g, k);
    }
  }

  /* ----- Observations, entities and spans ----- */

  // A lineage row up to b of a relationship the plan lists.
  ghost predicate Listed(g: Graph, b: nat, p: Plan, k: LineageKey) {
    k.rid in p.relationships && k in g.lineage && g.lineage[k].seqNo <= b
  }

  // The span holds the point.
  predicate Holds(s: Span, p: Point) {
    s.firstSeen <= p.time <= s.lastSeen && s.firstSeq <= p.seqNo <= s.lastSeq
  }

  // The plan's observations are exactly those of its relationships' lineage up to the boundary, each at the
  // position and time recorded there, within the scene's and the relationship's span.
  ghost predicate ObservationsMatch(g: Graph, b: nat, p: Plan) {
    && (forall k | Listed(g, b, p, k) ::
          && k.obsId in p.observations && p.observations[k.obsId] == g.lineage[k]
          && Holds(p.span, g.lineage[k]) && Holds(p.relationships[k.rid], g.lineage[k]))
    && (forall id | id in p.observations :: exists k :: Listed(g, b, p, k) && k.obsId == id)
  }

  // The bounds of each relationship's span are attained by its lineage, those of the scene by its observations.
  ghost predicate SpansAttained(g: Graph, b: nat, p: Plan) {
    && (forall rid | rid in p.relationships ::
          && (exists k :: Listed(g, b, p, k) && k.rid == rid && g.lineage[k].time == p.relationships[rid].firstSeen)
          && (exists k :: Listed(g, b, p, k) && k.rid == rid && g.lineage[k].time == p.relationships[rid].lastSeen)
          && (exists k :: Listed(g, b, p, k) && k.rid == rid && g.lineage[k].seqNo == p.relationships[rid].firstSeq)
          && (exists k :: Listed(g, b, p, k) && k.rid == rid && g.lineage[k].seqNo == p.relationships[rid].lastSeq))
    && (exists id :: id in p.observations && p.observations[id].time == p.span.firstSeen)
    && (exists id :: id in p.observations && p.observations[id].time == p.span.lastSeen)
    && (exists id :: id in p.observations && p.observations[id].seqNo == p.span.firstSeq)
    && (exists id :: id in p.observations && p.observations[id].seqNo == p.span.lastSeq)
  }

  // The plan's entities are exactly the endpoints of its relationships; an entity's span holds what theirs
  // do, and each of its bounds is attained there.
  ghost predicate EntitiesMatch(g: Graph, b: nat, p: Plan) {
    && (forall rid, id | rid in p.relationships && EndOf(g, rid, id) :: id in p.entities)
    && (forall id | id in p.entities ::
          && (exists rid :: rid in p.relationships && EndOf(g, rid, id))
          && (forall k | Listed(g, b, p, k) && EndOf(g, k.rid, id) :: Holds(p.entities[id], g.lineage[k]))
          && (exists k :: Listed(g, b, p, k) && EndOf(g, k.rid, id) && g.lineage[k].time == p.entities[id].firstSeen)
          && (exists k :: Listed(g, b, p, k) && EndOf(g, k.rid, id) && g.lineage[k].time == p.entities[id].lastSeen)
          && (exists k :: Listed(g, b, p, k) && EndOf(g, k.rid, id) && g.lineage[k].seqNo == p.entities[id].firstSeq)
          && (exists k :: Listed(g, b, p, k) && EndOf(g, k.rid, id) && g.lineage[k].seqNo == p.entities[id].lastSeq))
  }

  /** A plan's observations, entities and spans are those of the lineage of the relationships it lists. */
  lemma ContentsRead(g: Graph, root: RelationshipId, b: nat, p: Plan)
    requires IsPlan(g, root, b, p)
    ensures ObservationsMatch(g, b, p) && SpansAttained(g, b, p) && EntitiesMatch(g, b, p)
  {
    hide SceneObservations, SceneEntities, TransitionsExact, Members, Covers, ObservationsMatch, SpansAttained, EntitiesMatch;
    var ms := Members(g, root, b);
    ObservationsRead(g, ms, b, p);
    SpansRead(g, ms, b, p);
    EntitiesRead(g, ms, b, p);
  }

  lemma ObservationsRead(g: Graph, ms: set<RelationshipId>, b: nat, p: Plan)
    requires SceneRelationships(g, ms, b, p.relationships) && SceneObservations(g, ms, b, p.observations)
    requires Covers(p.span, p.observations.Values)
    ensures ObservationsMatch(g, b, p)
  {
    hide Covers, Holds;
    forall k | Listed(g, b, p, k)
      ensures k.obsId in p.observations && p.observations[k.obsId] == g.lineage[k]
      ensures Holds(p.span, g.lineage[k]) && Holds(p.relationships[k.rid], g.lineage[k])
    {
      assert k in RowsOf(g, k.rid, b);
      assert p.observations[k.obsId] in p.observations.Values;
      CoveredHolds(p.span, p.observations.Values, g.lineage[k]);
      CoveredHolds(p.relationships[k.rid], PointsOf(g, k.rid, b), g.lineage[k]);
    }
    forall id | id in p.observations
      ensures exists k :: Listed(g, b, p, k) && k.obsId == id
    {
      var rid, k :| rid in ms && k in RowsOf(g, rid, b) && k.obsId == id;
      assert Listed(g, b, p, k);
    }
  }

  lemma SpansRead(g: Graph, ms: set<RelationshipId>, b: nat, p: Plan)
    requires SceneRelationships(g, ms, b, p.relationships) && Covers(p.span, p.observations.Values)
    ensures SpansAttained(g, b, p)
  {
    hide Covers, PointsOf, Listed;
    forall rid | rid in p.relationships
      ensures exists k :: Listed(g, b, p, k) && k.rid == rid && k in g.lineage && g.lineage[k].time == p.relationships[rid].firstSeen
      ensures exists k :: Listed(g, b, p, k) && k.rid == rid && k in g.lineage && g.lineage[k].time == p.relationships[rid].lastSeen
      ensures exists k :: Listed(g, b, p, k) && k.rid == rid && k in g.lineage && g.lineage[k].seqNo == p.relationships[rid].firstSeq
      ensures exists k :: Listed(g, b, p, k) && k.rid == rid && k in g.lineage && g.lineage[k].seqNo == p.relationships[rid].lastSeq
    {
      PointsListed(g, b, p, rid);
      SpanAttained(p.relationships[rid], PointsOf(g, rid, b));
    }
    SpanAttained(p.span, p.observations.Values);
  }

  lemma PointsListed(g: Graph, b: nat, p: Plan, rid: RelationshipId)
    requires rid in p.relationships
    ensures forall x | x in PointsOf(g, rid, b) :: exists k :: Listed(g, b, p, k) && k.rid == rid && k in g.lineage && g.lineage[k] == x
  {
  }

  lemma EntitiesRead(g: Graph, ms: set<RelationshipId>, b: nat, p: Plan)
    requires p.relationships.Keys == ms && SceneEntities(g, ms, b, p.entities)
    ensures EntitiesMatch(g, b, p)
  {
    hide SceneEntities, Covers, Holds, Listed, EndOf, EndpointOf, EntityPoints;
    forall rid: RelationshipId, id: string
      ensures EndOf(g, rid, id) <==> EndpointOf(g, rid, id)
    {
      EndSame(g, rid, id);
    }
    EntityParts(g, ms, b, p.entities);
    EntityKeysOnly(g, ms, b, p.entities);
    forall id | id in p.entities
      ensures forall k | Listed(g, b, p, k) && EndOf(g, k.rid, id) :: k in g.lineage && Holds(p.entities[id], g.lineage[k])
      ensures exists k :: Listed(g, b, p, k) && EndOf(g, k.rid, id) && k in g.lineage && g.lineage[k].time == p.entities[id].firstSeen
      ensures exists k :: Listed(g, b, p, k) && EndOf(g, k.rid, id) && k in g.lineage && g.lineage[k].time == p.entities[id].lastSeen
      ensures exists k :: Listed(g, b, p, k) && EndOf(g, k.rid, id) && k in g.lineage && g.lineage[k].seqNo == p.entities[id].firstSeq
      ensures exists k :: Listed(g, b, p, k) && EndOf(g, k.rid, id) && k in g.lineage && g.lineage[k].seqNo == p.entities[id].lastSeq
    {
      EntitySpanRead(g, ms, b, p, id);
    }
  }

  lemma EntityParts(g: Graph, ms: set<RelationshipId>, b: nat, m: map<string, Span>)
    requires SceneEntities(g, ms, b, m)
    ensures forall rid, id | rid in ms && EndpointOf(g, rid, id) :: id in m
  {
  }

  lemma EndSame(g: Graph, rid: RelationshipId, id: string)
    ensures EndOf(g, rid, id) <==> EndpointOf(g, rid, id)
  {
  }

  lemma EntitySpanRead(g: Graph, ms: set<RelationshipId>, b: nat, p: Plan, id: string)
    requires p.relationships.Keys == ms && SceneEntities(g, ms, b, p.entities) && id in p.entities
    ensures forall k | Listed(g, b, p, k) && EndOf(g, k.rid, id) :: k in g.lineage && Holds(p.entities[id], g.lineage[k])
    ensures exists k :: Listed(g, b, p, k) && EndOf(g, k.rid, id) && k in g.lineage && g.lineage[k].time == p.entities[id].firstSeen
    ensures exists k :: Listed(g, b, p, k) && EndOf(g, k.rid, id) && k in g.lineage && g.lineage[k].time == p.entities[id].lastSeen
    ensures exists k :: Listed(g, b, p, k) && EndOf(g, k.rid, id) && k in g.lineage && g.lineage[k].seqNo == p.entities[id].firstSeq
    ensures exists k :: Listed(g, b, p, k) && EndOf(g, k.rid, id) && k in g.lineage && g.lineage[k].seqNo == p.entities[id].lastSeq
  {
    hide EntityPoints, Covers, EndpointOf, EndOf, Holds;
    EntityPointsListed(g, ms, b, p, id);
    SpanAttained(p.entities[id], EntityPoints(g, ms, b, id));
    forall k | Listed(g, b, p, k) && EndOf(g, k.rid, id)
      ensures k in g.lineage && Holds(p.entities[id], g.lineage[k])
    {
      CoveredHolds(p.entities[id], EntityPoints(g, ms, b, id), g.lineage[k]);
    }
  }

  // The entity is an endpoint of the stored relationship.
  predicate EndOf(g: Graph, rid: RelationshipId, id: string) {
    rid in g.relationships && (g.relationships[rid].sourceId == id || g.relationships[rid].targetId == id)
  }

  lemma EntityPointsListed(g: Graph, ms: set<RelationshipId>, b: nat, p: Plan, id: string)
    requires p.relationships.Keys == ms
    ensures forall k | Listed(g, b, p, k) && EndOf(g, k.rid, id) :: k in g.lineage && g.lineage[k] in EntityPoints(g, ms, b, id)
    ensures forall x | x in EntityPoints(g, ms, b, id) ::
      exists k :: Listed(g, b, p, k) && EndOf(g, k.rid, id) && k in g.lineage && g.lineage[k] == x
  {
    forall k | Listed(g, b, p, k) && EndOf(g, k.rid, id)
      ensures g.lineage[k] in EntityPoints(g, ms, b, id)
    {
      assert k in RowsOf(g, k.rid, b);
      assert g.lineage[k] in PointsOf(g, k.rid, b) && EndpointOf(g, k.rid, id);
    }
    forall x | x in EntityPoints(g, ms, b, id)
      ensures exists k :: Listed(g, b, p, k) && EndOf(g, k.rid, id) && k in g.lineage && g.lineage[k] == x
    {
      var rid :| rid in ms && EndpointOf(g, rid, id) && x in PointsOf(g, rid, b);
      var k :| k in RowsOf(g, rid, b) && g.lineage[k] == x;
      assert Listed(g, b, p, k);
    }
  }

  lemma SpanAttained(s: Span, pts: set<Point>)
    requires Covers(s, pts)
    ensures exists x :: x in pts && x.time == s.firstSeen
    ensures exists x :: x in pts && x.time == s.lastSeen
    ensures exists x :: x in pts && x.seqNo == s.firstSeq
    ensures exists x :: x in pts && x.seqNo == s.lastSeq
  {
  }

  lemma CoveredHolds(s: Span, pts: set<Point>, x: Point)
    requires Covers(s, pts) && x in pts
    ensures Holds(s, x)
  {
  }

  /* ----- Transitions ----- */

  // The row k triggers the root's exploit, or a compromise the root supports, up to b.
  ghost predicate ExploitRow(g: Graph, root: RelationshipId, b: nat, k: LineageKey) {
    k in g.derivations && k.rid == root && g.derivations[k].rule == CorSeq001 && g.derivations[k].triggerSeq <= b
  }

  ghost predicate CompromiseRow(g: Graph, root: RelationshipId, b: nat, k: LineageKey) {
    k in g.derivations && g.derivations[k].rule == CorSeq002 && g.derivations[k].triggerSeq <= b && SupportRow(k, root) in g.supports
  }

  // j does not come before k.
  ghost predicate NotBefore(g: Graph, j: LineageKey, k: LineageKey)
    requires j in g.derivations && k in g.derivations
  {
    || g.derivations[k].triggerSeq < g.derivations[j].triggerSeq
    || (g.derivations[k].triggerSeq == g.derivations[j].triggerSeq && !StringLess(j.obsId, k.obsId))
  }

  // k is the first of the exploit rows, or of the compromise rows, and t its transition.
  ghost predicate ExploitTransition(g: Graph, root: RelationshipId, b: nat, k: LineageKey, t: Transition) {
    && ExploitRow(g, root, b, k) && (forall j | ExploitRow(g, root, b, j) :: NotBefore(g, j, k))
    && t == Transition(g.derivations[k].triggerSeq, k.obsId, PotentialState, ObservedState, DeterministicExploitObserved)
  }

  ghost predicate CompromiseTransition(g: Graph, root: RelationshipId, b: nat, k: LineageKey, t: Transition) {
    && CompromiseRow(g, root, b, k) && (forall j | CompromiseRow(g, root, b, j) :: NotBefore(g, j, k))
    && t == Transition(g.derivations[k].triggerSeq, k.obsId, ObservedState, ConfirmedState, DeterministicCompromiseConfirmed)
  }

  /** The first transition is potential to observed at the root's first exploit trigger. There is a second
      exactly when the root supports a compromise, observed to confirmed at the first such trigger, and then
      the scene is confirmed; otherwise it is observed. */
  lemma TransitionsRead(g: Graph, root: RelationshipId, b: nat, p: Plan)
    requires WellFormed(g) && IsRoot(g, root, b) && TransitionsExact(g, root, b, p)
    ensures 1 <= |p.transitions| <= 2
    ensures exists k :: ExploitTransition(g, root, b, k, p.transitions[0])
    ensures |p.transitions| == 2 <==> exists k :: CompromiseRow(g, root, b, k)
    ensures |p.transitions| == 2 ==> exists k :: CompromiseTransition(g, root, b, k, p.transitions[1])
    ensures p.state == if |p.transitions| == 2 then ConfirmedState else ObservedState
  {
    hide WellFormed, Compromises, StringLess, IsRoot, RootDerivations, Before, NotBefore, ExploitRow, CompromiseRow;
    RootShape(g, root, b);
    forall k: LineageKey
      ensures k in Compromises(g, root, b) <==> CompromiseRow(g, root, b, k)
      ensures k in RootDerivations(g, root, b) <==> ExploitRow(g, root, b, k)
    {
      CompromiseRowRead(g, root, b, k);
      ExploitRowRead(g, root, b, k);
    }
    var rs, cs := RootDerivations(g, root, b), Compromises(g, root, b);
    var k :| IsFirst(g, rs, k) && TransitionsFrom(g, k, cs, p);
    FirstRead(g, rs, k);
    assert ExploitTransition(g, root, b, k, ObservedTransition(g, k));
    if cs != {} {
      var j :| IsFirst(g, cs, j) && p.transitions == Sorted(ObservedTransition(g, k), ConfirmedTransition(g, j));
      FirstRead(g, cs, j);
      RootPrecedesCompromise(g, root, b, k, j);
      assert p.transitions == [ObservedTransition(g, k), ConfirmedTransition(g, j)];
      assert CompromiseTransition(g, root, b, j, p.transitions[1]);
    } else {
      assert p.transitions == [ObservedTransition(g, k)];
    }
    assert p.transitions[0] == ObservedTransition(g, k);
  }

  lemma CompromiseRowRead(g: Graph, root: RelationshipId, b: nat, k: LineageKey)
    requires WellFormed(g) && root.rtype == Exploited
    ensures k in Compromises(g, root, b) <==> CompromiseRow(g, root, b, k)
  {
    hide WellFormed, Compromises;
    CompromiseIsDirect(g, root, b, k);
  }

  lemma ExploitRowRead(g: Graph, root: RelationshipId, b: nat, k: LineageKey)
    ensures k in RootDerivations(g, root, b) <==> ExploitRow(g, root, b, k)
  {
  }

  lemma FirstRead(g: Graph, ks: set<LineageKey>, k: LineageKey)
    requires ks <= g.derivations.Keys && IsFirst(g, ks, k)
    ensures k in ks && forall j | j in ks :: NotBefore(g, j, k)
  {
    hide StringLess;
  }

  /** A relationship is a scene's root at a boundary if and only if some row up to it derives it by
      COR-SEQ-001. */
  lemma RootsRead(g: Graph, root: RelationshipId, b: nat)
    requires WellFormed(g)
    ensures IsRoot(g, root, b) <==> exists k :: ExploitRow(g, root, b, k)
  {
    hide WellFormed, IsRoot, RootDerivations, ExploitRow;
    RootByDerivation(g, root, b);
    forall k: LineageKey
      ensures k in RootDerivations(g, root, b) <==> ExploitRow(g, root, b, k)
    {
      ExploitRowRead(g, root, b, k);
    }
  }

  /* ----- Failures ----- */

  // What the planner demands of a derivation it uses.
  ghost predicate WellSupported(g: Graph, k: LineageKey)
    requires k in g.derivations
  {
    && k in g.lineage && g.lineage[k].seqNo == g.derivations[k].triggerSeq
    && forall sup | SupportRow(k, sup) in g.supports ::
         exists j :: j in g.lineage && j.rid == sup && g.lineage[j].seqNo < g.derivations[k].triggerSeq
  }

  // Derivations used by the plan of a root are well supported, and agree with their relationship on the rule.
  ghost predicate RowsSupported(g: Graph, root: RelationshipId, b: nat) {
    && (forall k | ExploitRow(g, root, b, k) :: WellSupported(g, k))
    && (forall u, k | u in Reachable(g, root, b) && JoinedBy(g, root, u, b, k) ::
          WellSupported(g, k) && g.relationships[k.rid].rule == Some(g.derivations[k].rule))
  }

  // The members are stored with lineage up to the boundary, no observation is recorded in two ways, and every
  // endpoint has an entity.
  ghost predicate MembersStored(g: Graph, ents: EntityProjection.Entities, tenant: string, ms: set<RelationshipId>, b: nat) {
    && (forall rid | rid in ms :: rid in g.relationships && exists k :: k in g.lineage && k.rid == rid && g.lineage[k].seqNo <= b)
    && (forall j: LineageKey, k: LineageKey |
          j.rid in ms && k.rid in ms && j in g.lineage && k in g.lineage
          && g.lineage[j].seqNo <= b && g.lineage[k].seqNo <= b && j.obsId == k.obsId ::
          g.lineage[j] == g.lineage[k])
    && (forall rid, id | rid in ms && EndOf(g, rid, id) :: EntityProjection.EntityKey(tenant, id) in ents)
  }

  /** On arbitrary tables a qualifying root can be planned if and only if its rows are supported and its
      members stored in this sense. */
  lemma PlannableRead(g: Graph, ents: EntityProjection.Entities, root: RelationshipId, b: nat)
    ensures Plannable(g, ents, root, b) <==>
      RowsSupported(g, root, b) && MembersStored(g, ents, root.tenant, Members(g, root, b), b)
  {
    hide Members, Reachable, DerivationSound, JoiningSound, MemberSound, ObservationsConsistent, EndpointsPresent, Qualifying,
      RowsSupported, MembersStored, RootDerivations;
    RowsRead(g, root, b);
    StoredRead(g, ents, root.tenant, Members(g, root, b), b);
  }

  lemma RowsRead(g: Graph, root: RelationshipId, b: nat)
    ensures RowsSupported(g, root, b) <==>
      (forall k | k in RootDerivations(g, root, b) :: DerivationSound(g, k)) && (forall k | k in Qualifying(g, root, b) :: JoiningSound(g, k))
  {
    hide Reachable, DerivationSound, WellSupported, Qualifying, JoiningSound, JoinedBy;
    JoiningRead(g, root, b);
    forall k: LineageKey | k in g.derivations
      ensures DerivationSound(g, k) <==> WellSupported(g, k)
    {
      SoundRead(g, k);
    }
  }

  lemma StoredRead(g: Graph, ents: EntityProjection.Entities, tenant: string, ms: set<RelationshipId>, b: nat)
    ensures MembersStored(g, ents, tenant, ms, b) <==>
      (forall rid | rid in ms :: MemberSound(g, rid, b)) && ObservationsConsistent(g, ms, b) && EndpointsPresent(g, ents, tenant, ms)
  {
    hide ObservationsConsistent, MemberSound;
    ConsistentRead(g, ms, b);
    forall rid: RelationshipId
      ensures MemberSound(g, rid, b) <==> rid in g.relationships && exists k :: k in g.lineage && k.rid == rid && g.lineage[k].seqNo <= b
    {
      MemberRead(g, rid, b);
    }
    forall rid: RelationshipId, id: string
      ensures EndOf(g, rid, id) <==> EndpointOf(g, rid, id)
    {
      EndSame(g, rid, id);
    }
    hide EndOf, EndpointOf;
  }

  // k is a row up to b by which a compromise or lateral move was derived from u.
  ghost predicate JoinedBy(g: Graph, root: RelationshipId, u: RelationshipId, b: nat, k: LineageKey) {
    && k in g.derivations && g.derivations[k].triggerSeq <= b && SupportRow(k, u) in g.supports
    && k.rid in g.relationships && k.rid.tenant == root.tenant
    && g.relationships[k.rid].provenance == Deterministic
    && (|| (g.relationships[k.rid].rule == Some(CorSeq002) && g.relationships[k.rid].rtype == Compromised)
        || (g.relationships[k.rid].rule == Some(CorSeq003) && g.relationships[k.rid].rtype == MovedLaterallyTo))
  }

  lemma SoundRead(g: Graph, k: LineageKey)
    requires k in g.derivations
    ensures DerivationSound(g, k) <==> WellSupported(g, k)
  {
    forall sup
      ensures sup in SupportsOf(g, k) <==> SupportRow(k, sup) in g.supports
    {
      if SupportRow(k, sup) in g.supports {
        assert sup in SupportsOf(g, k);
      }
    }
  }

  lemma MemberRead(g: Graph, rid: RelationshipId, b: nat)
    ensures MemberSound(g, rid, b) <==> rid in g.relationships && exists k :: k in g.lineage && k.rid == rid && g.lineage[k].seqNo <= b
  {
    if k :| k in g.lineage && k.rid == rid && g.lineage[k].seqNo <= b {
      assert k in RowsOf(g, rid, b);
    }
  }

  lemma JoiningRead(g: Graph, root: RelationshipId, b: nat)
    ensures (forall k | k in Qualifying(g, root, b) :: JoiningSound(g, k)) <==>
      forall u, k | u in Reachable(g, root, b) && JoinedBy(g, root, u, b, k) ::
        WellSupported(g, k) && g.relationships[k.rid].rule == Some(g.derivations[k].rule)
  {
    hide Reachable;
    forall u: RelationshipId, k: LineageKey
      ensures k in JoiningDerivations(g, root.tenant, u, b) <==> JoinedBy(g, root, u, b, k)
    {
    }
    forall u: RelationshipId, k: LineageKey | JoinedBy(g, root, u, b, k)
      ensures JoiningSound(g, k) <==> WellSupported(g, k) && g.relationships[k.rid].rule == Some(g.derivations[k].rule)
    {
      SoundRead(g, k);
    }
    hide JoiningDerivations, JoinedBy, JoiningSound, WellSupported;
    if forall k | k in Qualifying(g, root, b) :: JoiningSound(g, k) {
      forall u, k | u in Reachable(g, root, b) && JoinedBy(g, root, u, b, k)
        ensures JoiningSound(g, k)
      {
        assert k in Qualifying(g, root, b);
      }
    }
  }

  lemma ConsistentRead(g: Graph, ms: set<RelationshipId>, b: nat)
    ensures ObservationsConsistent(g, ms, b) <==>
      forall j: LineageKey, k: LineageKey | j.rid in ms && k.rid in ms && j in g.lineage && k in g.lineage
                    && g.lineage[j].seqNo <= b && g.lineage[k].seqNo <= b && j.obsId == k.obsId ::
        g.lineage[j] == g.lineage[k]
  {
    if ObservationsConsistent(g, ms, b) {
      forall j: LineageKey, k: LineageKey | j.rid in ms && k.rid in ms && j in g.lineage && k in g.lineage
                    && g.lineage[j].seqNo <= b && g.lineage[k].seqNo <= b && j.obsId == k.obsId
        ensures g.lineage[j] == g.lineage[k]
      {
        assert j in RowsOf(g, j.rid, b) && k in RowsOf(g, k.rid, b);
      }
    }
  }
}
