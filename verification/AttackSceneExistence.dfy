/** A root whose validations succeed has a plan. */
module AttackSceneExistence {
  import opened Domain
  import opened Ordering
  import opened Spans
  import opened RelationshipGraph
  import opened AttackScenePlanner
  import opened AttackSceneSearch
  import EntityProjection

  lemma {:induction false} BoundsExist(pts: set<Point>) returns (s: Span)
    requires pts != {}
    ensures Covers(s, pts)
  {
    hide Covers;
    var p :| p in pts;
    if pts == {p} {
      FreshCovers(p);
      s := Fresh(p);
    } else {
      var rest := pts - {p};
      assert rest + {p} == pts;
      var t := BoundsExist(rest);
      WidenCovers(t, rest, p);
      s := Widen(t, p);
    }
  }

  ghost function BoundsOf(pts: set<Point>): (s: Span)
    requires pts != {}
    ensures Covers(s, pts)
  {
    assert exists s :: Covers(s, pts) by {
      var s := BoundsExist(pts);
    }
    var s :| Covers(s, pts);
    s
  }

  lemma {:induction false} FirstExists(g: Graph, ks: set<LineageKey>) returns (k: LineageKey)
    requires ks != {} && ks <= g.derivations.Keys
    ensures IsFirst(g, ks, k)
    decreases ks
  {
    hide StringLess;
    var q :| q in ks;
    StringTotal(q.obsId, q.obsId);
    var rest := ks - {q};
    if rest == {} {
      forall j | j in ks
        ensures j == q
      {
        assert j == q || j in rest;
      }
      k := q;
    } else {
      var f := FirstExists(g, rest);
      if Before(g, q, f) {
        forall j | j in ks
          ensures !Before(g, j, q)
        {
          if j != q && Before(g, j, q) {
            BeforeTransitive(g, j, q, f);
          }
        }
        k := q;
      } else {
        k := f;
      }
    }
  }

  lemma TransitionsExist(g: Graph, root: RelationshipId, b: nat, p: Plan) returns (q: Plan)
    requires RootDerivations(g, root, b) != {}
    ensures q == p.(state := q.state, transitions := q.transitions) && TransitionsExact(g, root, b, q)
  {
    hide Qualifying, Before;
    var cs := Compromises(g, root, b);
    var k := FirstExists(g, RootDerivations(g, root, b));
    if cs == {} {
      q := p.(state := ObservedState, transitions := [ObservedTransition(g, k)]);
    } else {
      var j := FirstExists(g, cs);
      q := p.(state := ConfirmedState, transitions := Sorted(ObservedTransition(g, k), ConfirmedTransition(g, j)));
    }
    assert TransitionsFrom(g, k, cs, q);
  }

  ghost function ObservationKeys(g: Graph, ms: set<RelationshipId>, b: nat): set<string> {
    set rid, k | rid in ms && k in RowsOf(g, rid, b) :: k.obsId
  }

  ghost function ObservationAt(g: Graph, ms: set<RelationshipId>, b: nat, o: string): Point
    requires o in ObservationKeys(g, ms, b)
  {
    var rid, k :| rid in ms && k in RowsOf(g, rid, b) && k.obsId == o;
    g.lineage[k]
  }

  lemma ObservationsExist(g: Graph, ms: set<RelationshipId>, b: nat) returns (m: map<string, Point>)
    requires ObservationsConsistent(g, ms, b)
    ensures SceneObservations(g, ms, b, m)
  {
    m := map o | o in ObservationKeys(g, ms, b) :: ObservationAt(g, ms, b, o);
    forall rid, k | rid in ms && k in RowsOf(g, rid, b)
      ensures k.obsId in m && m[k.obsId] == g.lineage[k]
    {
      hide RowsOf, ObservationsConsistent;
      assert k.obsId in ObservationKeys(g, ms, b);
      var r, j :| r in ms && j in RowsOf(g, r, b) && j.obsId == k.obsId && m[k.obsId] == g.lineage[j];
      Pair(g, ms, b, r, rid, j, k);
    }
  }

  ghost function EndpointIds(g: Graph, ms: set<RelationshipId>): set<string> {
    (set rid | rid in ms && rid in g.relationships :: g.relationships[rid].sourceId)
    + (set rid | rid in ms && rid in g.relationships :: g.relationships[rid].targetId)
  }

  lemma EndpointHasPoints(g: Graph, ms: set<RelationshipId>, b: nat, id: string)
    requires forall rid | rid in ms :: MemberSound(g, rid, b)
    requires id in EndpointIds(g, ms)
    ensures EntityPoints(g, ms, b, id) != {}
  {
    hide RowsOf;
    var rid :| rid in ms && EndpointOf(g, rid, id);
    PointsNonempty(g, rid, b);
    hide PointsOf;
    var p :| p in PointsOf(g, rid, b);
    assert p in EntityPoints(g, ms, b, id);
  }

  lemma EntitiesExist(g: Graph, ms: set<RelationshipId>, b: nat) returns (m: map<string, Span>)
    requires forall rid | rid in ms :: MemberSound(g, rid, b)
    ensures SceneEntities(g, ms, b, m)
  {
    hide MemberSound, Covers, EntityPoints;
    forall id | id in EndpointIds(g, ms)
      ensures EntityPoints(g, ms, b, id) != {}
    {
      EndpointHasPoints(g, ms, b, id);
    }
    m := map id | id in EndpointIds(g, ms) :: BoundsOf(EntityPoints(g, ms, b, id));
  }

  lemma RelationshipsExist(g: Graph, ms: set<RelationshipId>, b: nat) returns (m: map<RelationshipId, Span>)
    requires forall rid | rid in ms :: MemberSound(g, rid, b)
    ensures SceneRelationships(g, ms, b, m)
  {
    hide Covers, PointsOf, RowsOf;
    forall rid | rid in ms
      ensures PointsOf(g, rid, b) != {}
    {
      PointsNonempty(g, rid, b);
    }
    m := map rid | rid in ms :: BoundsOf(PointsOf(g, rid, b));
  }

  lemma PlanExists(g: Graph, ents: EntityProjection.Entities, root: RelationshipId, b: nat) returns (p: Plan)
    requires IsRoot(g, root, b) && Plannable(g, ents, root, b)
    ensures IsPlan(g, root, b, p)
  {
    hide MemberSound, ObservationsConsistent, SceneRelationships, SceneObservations, SceneEntities, TransitionsExact,
      Members, Covers, DerivationSound, JoiningSound, EndpointsPresent, Qualifying;
    var ms := Members(g, root, b);
    var relationships := RelationshipsExist(g, ms, b);
    var observations := ObservationsExist(g, ms, b);
    var entities := EntitiesExist(g, ms, b);
    RootObserved(g, root, b, ms, observations);
    var span := BoundsOf(observations.Values);
    p := TransitionsExist(g, root, b, Plan(root, ObservedState, span, relationships, entities, observations, []));
  }
}
