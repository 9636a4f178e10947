/** The planner's loops: the breadth-first search, the membership pass and plan_scene itself. */
module AttackSceneSearch {
  import opened Domain
  import opened Ordering
  import opened Spans
  import opened RelationshipGraph
  import opened AttackScenePlanner
  import EntityProjection

  /* ----- Breadth-first search ----- */

  ghost function Elements(queue: seq<RelationshipId>): set<RelationshipId> {
    set u | u in queue
  }

  ghost predicate NoRepeats(queue: seq<RelationshipId>) {
    forall i, j | 0 <= i < j < |queue| :: queue[i] != queue[j]
  }

  // What the search knows when it has expanded `expanded` and found `traversed`.
  ghost predicate SearchState(g: Graph, root: RelationshipId, b: nat, traversed: set<RelationshipId>,
                              expanded: set<RelationshipId>, qualifying: set<LineageKey>)
  {
    && root in traversed
    && expanded <= traversed <= Reachable(g, root, b)
    && (forall u, k | u in expanded && k in JoiningDerivations(g, root.tenant, u, b) :: k.rid in traversed)
    && qualifying == (set u, k | u in expanded && k in JoiningDerivations(g, root.tenant, u, b) :: k)
    && (forall k | k in qualifying :: k in g.derivations && k.rid in g.relationships && JoiningSound(g, k))
  }

  lemma SearchComplete(g: Graph, root: RelationshipId, b: nat, traversed: set<RelationshipId>, qualifying: set<LineageKey>)
    requires SearchState(g, root, b, traversed, traversed, qualifying)
    ensures traversed == Reachable(g, root, b) && qualifying == Qualifying(g, root, b)
  {
    hide Reachable, JoiningDerivations, JoiningSound;
    ReachableFound(g, root, b, traversed);
  }

  /** Expanding one relationship: check each derivation it supports and add what it joins. */
  method Expand(g: Graph, root: RelationshipId, b: nat, u: RelationshipId, known: set<RelationshipId>)
    returns (ok: bool, found: seq<RelationshipId>, joined: set<LineageKey>)
    requires u in Reachable(g, root, b) && known <= Reachable(g, root, b)
    ensures ok <==> forall k | k in JoiningDerivations(g, root.tenant, u, b) :: JoiningSound(g, k)
    ensures ok ==> joined == JoiningDerivations(g, root.tenant, u, b)
    ensures ok ==> NoRepeats(found) && Elements(found) !! known && Elements(found) <= Reachable(g, root, b)
    ensures ok ==> forall k | k in joined :: k.rid in known + Elements(found)
  {
    hide Reachable, JoiningSound;
    ReachableIsLeast(g, root, b);
    found, joined := [], {};
    var rest := ReverseDerivations(g, root.tenant, u, b);
    ghost var all := rest;
    while rest != {}
      invariant rest <= all
      invariant joined == set k | k in JoiningDerivations(g, root.tenant, u, b) && k !in rest
      invariant forall k | k in joined :: JoiningSound(g, k)
      invariant NoRepeats(found) && Elements(found) !! known && Elements(found) <= Reachable(g, root, b)
      invariant forall k | k in joined :: k.rid in known + Elements(found)
      decreases rest
    {
      var k :| k in rest;
      rest := rest - {k};
      if IsJoiningRow(g.relationships[k.rid]) {
        assert k in JoiningDerivations(g, root.tenant, u, b);
        if !JoiningSound(g, k) {
          return false, [], {};
        }
        joined := joined + {k};
        if k.rid !in known && k.rid !in found {
          found := found + [k.rid];
        }
      }
    }
    ok := true;
  }

  lemma ExpandedState(g: Graph, root: RelationshipId, b: nat, traversed: set<RelationshipId>, expanded: set<RelationshipId>,
                      qualifying: set<LineageKey>, u: RelationshipId, found: set<RelationshipId>, joined: set<LineageKey>)
    requires SearchState(g, root, b, traversed, expanded, qualifying)
    requires u in traversed && found <= Reachable(g, root, b)
    requires joined == JoiningDerivations(g, root.tenant, u, b)
    requires forall k | k in joined :: k.rid in traversed + found
    requires forall k | k in joined :: JoiningSound(g, k)
    ensures SearchState(g, root, b, traversed + found, expanded + {u}, qualifying + joined)
  {
    hide Reachable, JoiningSound;
  }

  lemma QueueStep(queue: seq<RelationshipId>, found: seq<RelationshipId>, traversed: set<RelationshipId>)
    requires queue != [] && NoRepeats(queue) && NoRepeats(found)
    requires Elements(queue) <= traversed && Elements(found) !! traversed
    ensures NoRepeats(queue[1..] + found)
    ensures Elements(queue[1..] + found) == Elements(queue) - {queue[0]} + Elements(found)
    ensures found != [] ==> found[0] in Elements(found)
  {
    var rest := queue[1..];
    assert forall i | 0 <= i < |rest| :: rest[i] == queue[i + 1];
    forall v | v in Elements(queue) && v != queue[0]
      ensures v in rest
    {
      var i :| 0 <= i < |queue| && queue[i] == v;
      assert rest[i - 1] == v;
    }
    forall i, j | 0 <= i < |rest| <= j < |rest| + |found|
      ensures (rest + found)[i] != (rest + found)[j]
    {
      assert rest[i] in Elements(queue) && found[j - |rest|] in Elements(found);
    }
  }

  method Search(g: Graph, root: RelationshipId, b: nat)
    returns (ok: bool, traversed: set<RelationshipId>, qualifying: set<LineageKey>)
    requires root in g.relationships
    ensures ok <==> forall k | k in Qualifying(g, root, b) :: JoiningSound(g, k)
    ensures ok ==> traversed == Reachable(g, root, b) && qualifying == Qualifying(g, root, b)
  {
    hide Reachable, JoiningSound, JoiningDerivations;
    ReachableIsLeast(g, root, b);
    var queue := [root];
    traversed, qualifying := {root}, {};
    ghost var expanded: set<RelationshipId> := {};
    while queue != []
      invariant SearchState(g, root, b, traversed, expanded, qualifying)
      invariant NoRepeats(queue) && expanded !! Elements(queue) && expanded + Elements(queue) == traversed
      decreases Reachable(g, root, b) - traversed, |queue|
    {
      var u := queue[0];
      assert u in Elements(queue);
      var sound, found, joined := Expand(g, root, b, u, traversed);
      if !sound {
        assert exists k :: k in JoiningDerivations(g, root.tenant, u, b) && !JoiningSound(g, k);
        return false, {}, {};
      }
      ExpandedState(g, root, b, traversed, expanded, qualifying, u, Elements(found), joined);
      QueueStep(queue, found, traversed);
      expanded := expanded + {u};
      qualifying := qualifying + joined;
      traversed := traversed + set v | v in found;
      queue := queue[1..] + found;
    }
    assert expanded == traversed;
    SearchComplete(g, root, b, traversed, qualifying);
    ok := true;
  }

  /* ----- Spans, observations and entities of the members ----- */

  method CollectObservations(g: Graph, rows: set<LineageKey>, rid: RelationshipId, seen: map<string, Point>)
    returns (ok: bool, obs: map<string, Point>)
    requires forall k | k in rows :: k in g.lineage && k.rid == rid
    ensures ok <==> forall k | k in rows && k.obsId in seen :: seen[k.obsId] == g.lineage[k]
    ensures ok ==> obs.Keys == seen.Keys + set k | k in rows :: k.obsId
    ensures ok ==> forall k | k in rows :: obs[k.obsId] == g.lineage[k]
    ensures ok ==> forall o | o in seen :: obs[o] == seen[o]
  {
    obs := seen;
    var rest := rows;
    while rest != {}
      invariant rest <= rows
      invariant obs.Keys == seen.Keys + set k | k in rows - rest :: k.obsId
      invariant forall k | k in rows - rest :: obs[k.obsId] == g.lineage[k]
      invariant forall o | o in seen :: obs[o] == seen[o]
      decreases rest
    {
      var k :| k in rest;
      if k.obsId in obs && obs[k.obsId] != g.lineage[k] {
        assert k.obsId !in (set j | j in rows - rest :: j.obsId) by {
          forall j | j in rows - rest
            ensures j.obsId != k.obsId
          {
          }
        }
        return false, map[];
      }
      obs := obs[k.obsId := g.lineage[k]];
      rest := rest - {k};
    }
    assert rows - rest == rows;
    ok := true;
  }

  function Widened(entities: map<string, Span>, id: string, s: Span): map<string, Span> {
    entities[id := if id in entities then Join(entities[id], s) else s]
  }

  lemma RelationshipsPlus(g: Graph, done: set<RelationshipId>, b: nat, m: map<RelationshipId, Span>, rid: RelationshipId, s: Span)
    requires SceneRelationships(g, done, b, m) && Covers(s, PointsOf(g, rid, b))
    ensures SceneRelationships(g, done + {rid}, b, m[rid := s])
  {
    hide Covers, PointsOf;
  }

  lemma ObservationsPlus(g: Graph, done: set<RelationshipId>, b: nat, m: map<string, Point>, rid: RelationshipId,
                         m': map<string, Point>)
    requires SceneObservations(g, done, b, m)
    requires m'.Keys == m.Keys + set k | k in RowsOf(g, rid, b) :: k.obsId
    requires forall k | k in RowsOf(g, rid, b) :: m'[k.obsId] == g.lineage[k]
    requires forall o | o in m :: m'[o] == m[o]
    ensures SceneObservations(g, done + {rid}, b, m')
  {
    hide RowsOf;
    forall o | o in m'
      ensures exists r, k :: r in done + {rid} && k in RowsOf(g, r, b) && k.obsId == o
    {
      if o in m {
        var r, k :| r in done && k in RowsOf(g, r, b) && k.obsId == o;
        assert r in done + {rid};
      } else {
        var k :| k in RowsOf(g, rid, b) && k.obsId == o;
        assert rid in done + {rid};
      }
    }
  }

  // The rows of rid agree with the observations collected from the members before it.
  ghost predicate RowsAgree(g: Graph, b: nat, m: map<string, Point>, rid: RelationshipId) {
    forall k | k in RowsOf(g, rid, b) && k.obsId in m :: m[k.obsId] == g.lineage[k]
  }

  lemma ConsistencyNeedsAgreement(g: Graph, done: set<RelationshipId>, b: nat, m: map<string, Point>, rid: RelationshipId)
    requires SceneObservations(g, done, b, m) && ObservationsConsistent(g, done + {rid}, b)
    ensures RowsAgree(g, b, m, rid)
  {
    hide ObservationsConsistent;
    forall k | k in RowsOf(g, rid, b) && k.obsId in m
      ensures m[k.obsId] == g.lineage[k]
    {
      hide RowsOf;
      var r, j :| r in done && j in RowsOf(g, r, b) && j.obsId == k.obsId;
      Pair(g, done + {rid}, b, r, rid, j, k);
    }
  }

  lemma Pair(g: Graph, ms: set<RelationshipId>, b: nat, r: RelationshipId, s: RelationshipId, j: LineageKey, k: LineageKey)
    requires ObservationsConsistent(g, ms, b) && r in ms && s in ms
    requires j in RowsOf(g, r, b) && k in RowsOf(g, s, b) && j.obsId == k.obsId
    ensures j in g.lineage && k in g.lineage && g.lineage[j] == g.lineage[k]
  {
  }

  lemma AgreementKeepsConsistency(g: Graph, done: set<RelationshipId>, b: nat, m: map<string, Point>, rid: RelationshipId)
    requires SceneObservations(g, done, b, m) && ObservationsConsistent(g, done, b) && RowsAgree(g, b, m, rid)
    ensures ObservationsConsistent(g, done + {rid}, b)
  {
    hide SceneObservations;
    forall r, s, j, k | r in done + {rid} && s in done + {rid} && j in RowsOf(g, r, b) && k in RowsOf(g, s, b) && j.obsId == k.obsId
      ensures g.lineage[j] == g.lineage[k]
    {
      hide RowsOf, ObservationsConsistent, RowsAgree;
      if r in done && s in done {
        Pair(g, done, b, r, s, j, k);
      } else if r in done {
        Collected(g, done, b, m, rid, r, j, k);
      } else if s in done {
        Collected(g, done, b, m, rid, s, k, j);
      } else {
        OneRow(g, b, rid, j, k);
      }
    }
  }

  lemma Collected(g: Graph, done: set<RelationshipId>, b: nat, m: map<string, Point>, rid: RelationshipId,
                  r: RelationshipId, j: LineageKey, k: LineageKey)
    requires SceneObservations(g, done, b, m) && RowsAgree(g, b, m, rid)
    requires r in done && j in RowsOf(g, r, b) && k in RowsOf(g, rid, b) && j.obsId == k.obsId
    ensures j in g.lineage && k in g.lineage && g.lineage[j] == g.lineage[k]
  {
    assert j.obsId in m && m[j.obsId] == g.lineage[j];
  }

  lemma OneRow(g: Graph, b: nat, rid: RelationshipId, j: LineageKey, k: LineageKey)
    requires j in RowsOf(g, rid, b) && k in RowsOf(g, rid, b) && j.obsId == k.obsId
    ensures j in g.lineage && j == k
  {
  }

  lemma ConsistencyPlus(g: Graph, done: set<RelationshipId>, b: nat, m: map<string, Point>, rid: RelationshipId)
    requires SceneObservations(g, done, b, m) && ObservationsConsistent(g, done, b)
    ensures ObservationsConsistent(g, done + {rid}, b) <==> RowsAgree(g, b, m, rid)
  {
    hide SceneObservations, ObservationsConsistent, RowsAgree;
    if ObservationsConsistent(g, done + {rid}, b) {
      ConsistencyNeedsAgreement(g, done, b, m, rid);
    }
    if RowsAgree(g, b, m, rid) {
      AgreementKeepsConsistency(g, done, b, m, rid);
    }
  }

  lemma EntityPointsPlus(g: Graph, done: set<RelationshipId>, b: nat, rid: RelationshipId, id: string)
    ensures EntityPoints(g, done + {rid}, b, id)
         == EntityPoints(g, done, b, id) + (if EndpointOf(g, rid, id) then PointsOf(g, rid, b) else {})
  {
    hide PointsOf, EndpointOf;
    assert rid in done + {rid};
    forall r | r in done
      ensures r in done + {rid}
    {
    }
  }

  lemma EntitiesPlus(g: Graph, done: set<RelationshipId>, b: nat, m: map<string, Span>, rid: RelationshipId, s: Span,
                     m': map<string, Span>)
    requires SceneEntities(g, done, b, m) && rid !in done && rid in g.relationships
    requires Covers(s, PointsOf(g, rid, b))
    requires m'.Keys == m.Keys + {g.relationships[rid].sourceId, g.relationships[rid].targetId}
    requires forall id | id in m' ::
      m'[id] == (if !EndpointOf(g, rid, id) then m[id] else if id in m then Join(m[id], s) else s)
    ensures SceneEntities(g, done + {rid}, b, m')
  {
    hide Covers, PointsOf, EntityPoints;
    forall id | id in m'
      ensures Covers(m'[id], EntityPoints(g, done + {rid}, b, id))
    {
      EntityPointsPlus(g, done, b, rid, id);
      if EndpointOf(g, rid, id) {
        if id in m {
          JoinCovers(m[id], EntityPoints(g, done, b, id), s, PointsOf(g, rid, b));
        } else {
          NoEntityPoints(g, done, b, m, id);
          assert EntityPoints(g, done, b, id) + PointsOf(g, rid, b) == PointsOf(g, rid, b);
        }
      } else {
        assert EntityPoints(g, done, b, id) + {} == EntityPoints(g, done, b, id);
      }
    }
  }

  lemma NoEntityPoints(g: Graph, done: set<RelationshipId>, b: nat, m: map<string, Span>, id: string)
    requires SceneEntities(g, done, b, m) && id !in m
    ensures EntityPoints(g, done, b, id) == {}
  {
  }

  // _memberships and the span arithmetic of _entities.
  method Memberships(g: Graph, ms: set<RelationshipId>, b: nat)
    returns (ok: bool, relationships: map<RelationshipId, Span>, observations: map<string, Point>, entities: map<string, Span>)
    ensures ok <==> (forall rid | rid in ms :: MemberSound(g, rid, b)) && ObservationsConsistent(g, ms, b)
    ensures ok ==> SceneRelationships(g, ms, b, relationships)
    ensures ok ==> SceneObservations(g, ms, b, observations)
    ensures ok ==> SceneEntities(g, ms, b, entities)
  {
    hide SceneRelationships, SceneObservations, SceneEntities, ObservationsConsistent, PointsOf, Covers;
    relationships, observations, entities := map[], map[], map[];
    var rest := ms;
    ghost var done: set<RelationshipId> := {};
    NothingExact(g, b);
    while rest != {}
      invariant done + rest == ms && done !! rest
      invariant forall rid | rid in done :: MemberSound(g, rid, b)
      invariant ObservationsConsistent(g, done, b)
      invariant SceneRelationships(g, done, b, relationships)
      invariant SceneObservations(g, done, b, observations)
      invariant SceneEntities(g, done, b, entities)
      decreases rest
    {
      var rid :| rid in rest;
      rest := rest - {rid};
      if !MemberSound(g, rid, b) {
        return false, map[], map[], map[];
      }
      PointsNonempty(g, rid, b);
      var span := Bounds(PointsOf(g, rid, b));
      ConsistencyPlus(g, done, b, observations, rid);
      var agree, more := CollectObservations(g, RowsOf(g, rid, b), rid, observations);
      if !agree {
        ConsistencyShrinks(g, done + {rid}, ms, b);
        return false, map[], map[], map[];
      }
      ObservationsPlus(g, done, b, observations, rid, more);
      RelationshipsPlus(g, done, b, relationships, rid, span);
      ghost var before := entities;
      var row := g.relationships[rid];
      entities := Widened(entities, row.sourceId, span);
      entities := Widened(entities, row.targetId, span);
      JoinAgain(before, row.sourceId, row.targetId, span);
      EntitiesPlus(g, done, b, before, rid, span, entities);
      observations := more;
      relationships := relationships[rid := span];
      done := done + {rid};
    }
    assert done == ms;
    ok := true;
  }

  lemma JoinAgain(m: map<string, Span>, a: string, c: string, s: Span)
    ensures var m' := Widened(Widened(m, a, s), c, s);
      && m'.Keys == m.Keys + {a, c}
      && forall id | id in m' :: m'[id] ==
           if id != a && id != c then m[id] else if id in m then Join(m[id], s) else s
  {
  }

  lemma NothingExact(g: Graph, b: nat)
    ensures SceneRelationships(g, {}, b, map[]) && SceneObservations(g, {}, b, map[]) && SceneEntities(g, {}, b, map[])
    ensures ObservationsConsistent(g, {}, b)
  {
  }

  lemma PointsNonempty(g: Graph, rid: RelationshipId, b: nat)
    requires RowsOf(g, rid, b) != {}
    ensures PointsOf(g, rid, b) != {}
  {
    var k :| k in RowsOf(g, rid, b);
    assert g.lineage[k] in PointsOf(g, rid, b);
  }

  lemma ConsistencyShrinks(g: Graph, small: set<RelationshipId>, large: set<RelationshipId>, b: nat)
    requires small <= large
    ensures ObservationsConsistent(g, large, b) ==> ObservationsConsistent(g, small, b)
  {
    hide RowsOf;
  }

  /* ----- First triggers ----- */

  lemma BeforeTransitive(g: Graph, i: LineageKey, j: LineageKey, k: LineageKey)
    requires i in g.derivations && j in g.derivations && k in g.derivations
    requires Before(g, i, j) && Before(g, j, k)
    ensures Before(g, i, k)
  {
    if g.derivations[i].triggerSeq == g.derivations[k].triggerSeq {
      StringTransitive(i.obsId, j.obsId, k.obsId);
    }
  }

  method FirstOf(g: Graph, ks: set<LineageKey>) returns (k: LineageKey)
    requires ks != {} && ks <= g.derivations.Keys
    ensures IsFirst(g, ks, k)
  {
    hide StringLess;
    k :| k in ks;
    StringTotal(k.obsId, k.obsId);
    var rest := ks - {k};
    while rest != {}
      invariant rest <= ks && k in ks
      invariant forall j | j in ks - rest :: !Before(g, j, k)
      decreases rest
    {
      var q :| q in rest;
      if Before(g, q, k) {
        StringTotal(q.obsId, q.obsId);
        forall j | j in ks - rest
          ensures !Before(g, j, q)
        {
          if Before(g, j, q) {
            BeforeTransitive(g, j, q, k);
          }
        }
        k := q;
      }
      rest := rest - {q};
    }
  }

  /* ----- plan_scene ----- */

  lemma EndpointsCovered(g: Graph, ents: EntityProjection.Entities, tenant: string, ms: set<RelationshipId>, b: nat,
                         m: map<string, Span>)
    requires SceneEntities(g, ms, b, m)
    ensures EndpointsPresent(g, ents, tenant, ms) <==>
      forall id | id in m :: EntityProjection.EntityKey(tenant, id) in ents
  {
    hide PointsOf, EndpointOf;
    forall id | id in m
      ensures exists rid :: rid in ms && EndpointOf(g, rid, id)
    {
      var p :| p in EntityPoints(g, ms, b, id);
    }
  }

  // Transitions in order of sequence and observation, the exploit first if both are the same.
  predicate InOrder(ts: seq<Transition>) {
    forall i, j | 0 <= i < j < |ts| ::
      || ts[i].seqNo < ts[j].seqNo
      || (ts[i].seqNo == ts[j].seqNo && StringLess(ts[i].obsId, ts[j].obsId))
      || (ts[i].seqNo == ts[j].seqNo && ts[i].obsId == ts[j].obsId && ts[i].from == PotentialState)
  }

  lemma SortedInOrder(s: Transition, t: Transition)
    requires s.from == PotentialState
    ensures InOrder([s]) && InOrder(Sorted(s, t))
  {
    hide StringLess;
    StringTotal(s.obsId, t.obsId);
  }

  method PlanTransitions(g: Graph, root: RelationshipId, b: nat, qualifying: set<LineageKey>, partial: Plan) returns (p: Plan)
    requires RootDerivations(g, root, b) != {} && qualifying == Qualifying(g, root, b)
    ensures p == partial.(state := p.state, transitions := p.transitions)
    ensures TransitionsExact(g, root, b, p) && InOrder(p.transitions)
  {
    hide Reachable, JoiningDerivations, StringLess, InOrder;
    var k := FirstOf(g, RootDerivations(g, root, b));
    var compromises := set q | q in qualifying && q in g.derivations && g.derivations[q].rule == CorSeq002;
    assert compromises == Compromises(g, root, b);
    if compromises == {} {
      SortedInOrder(ObservedTransition(g, k), ObservedTransition(g, k));
      p := partial.(state := ObservedState, transitions := [ObservedTransition(g, k)]);
    } else {
      var j := FirstOf(g, compromises);
      SortedInOrder(ObservedTransition(g, k), ConfirmedTransition(g, j));
      p := partial.(state := ConfirmedState, transitions := Sorted(ObservedTransition(g, k), ConfirmedTransition(g, j)));
    }
  }

  /** plan_scene on any store whatever: it refuses until its dependencies reach the boundary, finds
      no scene exactly when the root does not qualify, raises exactly when a validation fails, and
      otherwise returns the plan. */
  method PlanScene(g: Graph, ents: EntityProjection.Entities, deps: Dependencies, root: RelationshipId, b: nat)
    returns (r: PlanOutcome)
    ensures r.NotReady? <==> deps.entity < b || deps.relationship < b || deps.correlation < b
    ensures Ready(deps, b) ==> (r.NoScene? <==> !IsRoot(g, root, b))
    ensures Ready(deps, b) && IsRoot(g, root, b) ==> (r.Broken? <==> !Plannable(g, ents, root, b))
    ensures r.Planned? ==> IsPlan(g, root, b, r.plan) && InOrder(r.plan.transitions)
  {
    hide InOrder, Reachable, JoiningDerivations, SceneRelationships, SceneObservations, SceneEntities, ObservationsConsistent,
      EndpointsPresent, TransitionsExact, JoiningSound, DerivationSound, RowsOf, RootSupports;
    if !Ready(deps, b) {
      return NotReady;
    }
    if !IsRoot(g, root, b) {
      return NoScene;
    }
    if !(forall k | k in RootDerivations(g, root, b) :: DerivationSound(g, k)) {
      return Broken;
    }
    var sound, joined, qualifying := Search(g, root, b);
    if !sound {
      return Broken;
    }
    var members := joined + RootSupports(g, root, b);
    var ok, relationships, observations, entities := Memberships(g, members, b);
    if !ok {
      return Broken;
    }
    EndpointsCovered(g, ents, root.tenant, members, b, entities);
    if !(forall id | id in entities :: EntityProjection.EntityKey(root.tenant, id) in ents) {
      return Broken;
    }
    RootObserved(g, root, b, members, observations);
    var span := Bounds(observations.Values);
    var p := PlanTransitions(g, root, b, qualifying, Plan(root, ObservedState, span, relationships, entities, observations, []));
    r := Planned(p);
  }

  lemma RootObserved(g: Graph, root: RelationshipId, b: nat, ms: set<RelationshipId>, m: map<string, Point>)
    requires ms == Members(g, root, b) && SceneObservations(g, ms, b, m)
    requires forall rid | rid in ms :: MemberSound(g, rid, b)
    ensures m.Values != {}
  {
    hide RootSupports;
    assert root in ms by {
      ReachableIsLeast(g, root, b);
    }
    hide Reachable;
    var k :| k in RowsOf(g, root, b);
    assert m[k.obsId] in m.Values;
  }
}
