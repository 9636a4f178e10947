/** One handled item of each projector keeps the tables exact. */
module PipelineSteps {
  import opened Domain
  import opened Spans
  import opened RelationshipGraph
  import opened CorrelationRules
  import opened CorrelationHistory
  import opened AttackScenePlanner
  import opened AttackSceneFacts
  import opened AttackSceneStability
  import opened AttackSceneProjection
  import opened GraphInvariants
  import opened Pipeline
  import CorrelationExactness
  import Correlation = CorrelationProjection
  import Relationship = RelationshipProjection
  import Entity = EntityProjection

  lemma ItemsPlus(log: seq<Observation>, n: nat)
    requires n < |log|
    ensures Items(log, n + 1) == Items(log, n) + {ItemAt(log, n + 1)}
  {
  }

  lemma EntityItem(m: Entity.Entities, log: seq<Observation>, e: nat)
    requires e < |log| && EntitiesAt(m, log, e) && Entity.Step(m, ItemAt(log, e + 1)).Done?
    ensures EntitiesAt(Entity.Step(m, ItemAt(log, e + 1)).state, log, e + 1)
  {
    hide Items, Entity.EntitiesExact, Entity.ItemClaims, Entity.RecordAll, Entity.ClaimsOf, Entity.Contradicts;
    ItemsPlus(log, e);
    Entity.StepExact(m, Items(log, e), ItemAt(log, e + 1));
  }

  lemma EntriesPlus(log: seq<Observation>, r: nat, ds: set<Derivation>)
    requires r < |log|
    ensures var item := ItemAt(log, r + 1);
      EntriesAt(log, r + 1, ds)
      == EntriesAt(log, r, ds) + (if ObservedId(item.obs).Some? then {Relationship.ObservedEntry(item)} else {})
  {
    hide Items, Relationship.ObservedEntries, DerivedEntries;
    ItemsPlus(log, r);
    Relationship.ObservedEntriesPlus(Items(log, r), ItemAt(log, r + 1));
  }

  lemma RelationshipItem(cfg: Config, log: seq<Observation>, g: Graph, r: nat, c: nat)
    requires c <= r < |log| && UniqueObservations(log) && GraphAt(g, log, cfg, r, c)
    requires Relationship.Step(cfg.ontology, g, ItemAt(log, r + 1)).Done?
    ensures GraphAt(Relationship.Step(cfg.ontology, g, ItemAt(log, r + 1)).state, log, cfg, r + 1, c)
  {
    hide Derivations, Items, TablesExact, UniqueObservations, Relationship.Step, EntriesAt, LineageTablesExact, Identified,
      AllJustified;
    var ds, item := Derivations(log, cfg, c), ItemAt(log, r + 1);
    CorrelationExactness.KnownOrigin(log, cfg, r, c);
    EntriesIdentified(log, cfg, r + 1, ds);
    var es := EntriesAt(log, r, ds);
    EntriesPlus(log, r, ds);
    Relationship.StepExact(cfg.ontology, g, es, item);
    LineageUntouched(cfg.ontology, g, item, ds);
  }

  lemma LineageUntouched(ont: Ontology, g: Graph, item: Item, ds: set<Derivation>)
    requires Relationship.Step(ont, g, item).Done? && LineageTablesExact(g, ds)
    ensures LineageTablesExact(Relationship.Step(ont, g, item).state, ds)
  {
  }

  lemma CorrelationItem(cfg: Config, log: seq<Observation>, g: Graph, r: nat, c: nat)
    requires c <= r <= |log| && c < |log| && UniqueObservations(log) && GraphAt(g, log, cfg, r, c)
    requires Correlation.Step(cfg, g, EvidenceLinks(log), r, ItemAt(log, c + 1)).Done?
    ensures c + 1 <= r
    ensures GraphAt(Correlation.Step(cfg, g, EvidenceLinks(log), r, ItemAt(log, c + 1)).state, log, cfg, r, c + 1)
  {
    hide GraphExact, Derivations, UniqueObservations, Correlation.EvaluateAll, Correlation.PersistAll;
    CorrelationExactness.StepExact(cfg, log, r, c + 1, g, r);
  }

  /* ----- Scenes while the graph moves ----- */

  // What moving from one graph and boundary to another takes for stored scenes to stay exact.
  lemma ScenesCarryOver(g: Graph, b: nat, g': Graph, b': nat, scenes: Scenes, root: RelationshipId)
    requires WellFormed(g) && WellFormed(g') && SameRows(g, b, g', b', root.tenant)
    requires ScenesExact(g, scenes, b)
    ensures root in scenes <==> IsRoot(g', root, b')
    ensures root in scenes ==> exists p :: IsPlan(g', root, b', p) && Shows(scenes[root], p)
  {
    hide WellFormed, SameRows, IsRoot, IsPlan, Shows;
    if root in scenes {
      var p :| IsPlan(g, root, b, p) && Shows(scenes[root], p);
      SnapshotStable(g, b, g', b', root, p);
    } else {
      SnapshotStable(g, b, g', b', root, Plan(root, PotentialState, Span(0, 0, 0, 0), map[], map[], map[], []));
    }
  }

  /** Upstream progress leaves every stored scene exact. */
  lemma ScenesMoved(cfg: Config, log: seq<Observation>, g: Graph, g': Graph, scenes: Scenes,
                    r: nat, c: nat, r': nat, c': nat, n: nat)
    requires n <= c <= r <= |log| && n <= c' <= r' <= |log| && UniqueObservations(log)
    requires GraphAt(g, log, cfg, r, c) && GraphAt(g', log, cfg, r', c') && ScenesExact(g, scenes, n)
    ensures ScenesExact(g', scenes, n)
  {
    hide GraphAt, UniqueObservations, WellFormed, SameRows, IsRoot, IsPlan, Shows;
    ExactWellFormed(g, log, cfg, r, c);
    ExactWellFormed(g', log, cfg, r', c');
    forall root: RelationshipId
      ensures root in scenes <==> IsRoot(g', root, n)
      ensures root in scenes ==> exists p :: IsPlan(g', root, n, p) && Shows(scenes[root], p)
    {
      ExactSameRows(g, g', log, cfg, r, c, r', c', n, root.tenant);
      ScenesCarryOver(g, n, g', n, scenes, root);
    }
  }

  /* ----- Scenes when their own projector moves ----- */

  ghost predicate DistinctKeys(ts: seq<Transition>) {
    forall i, j | 0 <= i < j < |ts| :: KeyOfTransition(ts[i]) != KeyOfTransition(ts[j])
  }

  lemma {:induction false} DistinctWrites(ts: seq<Transition>)
    requires DistinctKeys(ts)
    ensures WriteTransitions(map[], ts).Some?
    ensures TransitionRows(ts).Keys == set t | t in ts :: KeyOfTransition(t)
    ensures forall t | t in ts :: TransitionRows(ts)[KeyOfTransition(t)] == RowOfTransition(t)
  {
    if ts != [] {
      var init, t := ts[..|ts| - 1], ts[|ts| - 1];
      assert ts == init + [t];
      DistinctWrites(init);
      assert KeyOfTransition(t) !in TransitionRows(init);
    }
  }

  /** Writing a longer list over the rows of its prefix leaves the rows of the longer list. */
  lemma {:induction false} WriteOverPrefix(us: seq<Transition>, ts: seq<Transition>)
    requires us <= ts && DistinctKeys(ts)
    ensures WriteTransitions(TransitionRows(us), ts) == Some(TransitionRows(ts))
  {
    hide TransitionRows, DistinctKeys;
    if us == ts {
      Rewriting(us, us);
    } else {
      LastRow(ts);
      WriteOverPrefix(us, ts[..|ts| - 1]);
    }
  }

  lemma LastRow(ts: seq<Transition>)
    requires DistinctKeys(ts) && ts != []
    ensures var init, t := ts[..|ts| - 1], ts[|ts| - 1];
      && DistinctKeys(init)
      && KeyOfTransition(t) !in TransitionRows(init)
      && TransitionRows(ts) == TransitionRows(init)[KeyOfTransition(t) := RowOfTransition(t)]
  {
    DistinctWrites(ts[..|ts| - 1]);
  }

  lemma {:induction false} Rewriting(us: seq<Transition>, ts: seq<Transition>)
    requires ts <= us && DistinctKeys(us)
    ensures WriteTransitions(TransitionRows(us), ts) == Some(TransitionRows(us))
  {
    DistinctWrites(us);
    if ts != [] {
      var init, t := ts[..|ts| - 1], ts[|ts| - 1];
      assert t == us[|ts| - 1];
      Rewriting(us, init);
    }
  }

  // What a plan's transitions and state look like.
  lemma PlannedTransitions(g: Graph, root: RelationshipId, b: nat, p: Plan)
    requires WellFormed(g) && IsRoot(g, root, b) && IsPlan(g, root, b, p)
    ensures DistinctKeys(p.transitions) && (p.state == ObservedState || p.state == ConfirmedState)
  {
    hide WellFormed, IsRoot, TransitionsExact, SceneRelationships, SceneObservations, SceneEntities, Members;
    TransitionChain(g, root, b, p);
  }

  lemma MergedAfterGrowth(s: StoredScene, p: Plan, p': Plan)
    requires Shows(s, p) && Grows(p, p') && DistinctKeys(p'.transitions)
    requires p.state == ObservedState || p.state == ConfirmedState
    requires p'.state == ObservedState || p'.state == ConfirmedState
    ensures Merge(Some(s), p').Some? && Shows(Merge(Some(s), p').value, p')
  {
    hide DistinctKeys, WriteTransitions, TransitionRows;
    WriteOverPrefix(p.transitions, p'.transitions);
  }

  /** Merging a later plan over the rows of an earlier one succeeds and leaves the later plan's rows. */
  lemma MergeShows(g: Graph, root: RelationshipId, b: nat, b': nat, s: StoredScene, p: Plan, p': Plan)
    requires WellFormed(g) && IsRoot(g, root, b) && b <= b'
    requires IsPlan(g, root, b, p) && IsPlan(g, root, b', p') && Shows(s, p)
    ensures Merge(Some(s), p').Some? && Shows(Merge(Some(s), p').value, p')
  {
    hide WellFormed, IsRoot, IsPlan, Shows, Merge, Grows, DistinctKeys;
    PlansGrow(g, root, b, b', p, p');
    LaterRoot(g, root, b, b');
    PlannedTransitions(g, root, b, p);
    PlannedTransitions(g, root, b', p');
    MergedAfterGrowth(s, p, p');
  }

  lemma FreshShows(g: Graph, root: RelationshipId, b: nat, p: Plan)
    requires WellFormed(g) && IsRoot(g, root, b) && IsPlan(g, root, b, p)
    ensures Merge(None, p).Some? && Shows(Merge(None, p).value, p)
  {
    hide WellFormed, IsRoot, IsPlan;
    PlannedTransitions(g, root, b, p);
    DistinctWrites(p.transitions);
  }

  /** Re-planning a root of an exact store at the next position merges, and leaves the new plan. */
  lemma RemergedShows(g: Graph, scenes: Scenes, b: nat, root: RelationshipId, p: Plan)
    requires WellFormed(g) && ScenesExact(g, scenes, b)
    requires IsRoot(g, root, b + 1) && IsPlan(g, root, b + 1, p)
    ensures Remerged(g, scenes, b + 1, root).Some? && Shows(Remerged(g, scenes, b + 1, root).value, p)
  {
    hide WellFormed, IsRoot, IsPlan, Shows, Merge;
    RemergedIs(g, scenes, b + 1, root, p);
    if root in scenes {
      var q :| IsPlan(g, root, b, q) && Shows(scenes[root], q);
      MergeShows(g, root, b, b + 1, scenes[root], q, p);
    } else {
      FreshShows(g, root, b + 1, p);
    }
  }

  lemma RootListed(g: Graph, root: RelationshipId, b: nat)
    requires IsRoot(g, root, b)
    ensures root in Roots(g, root.tenant, b)
  {
    var k :| k in RootDerivations(g, root, b);
    assert k.rid == root;
  }

  lemma RootsMember(g: Graph, tenant: string, b: nat, root: RelationshipId)
    ensures root in Roots(g, tenant, b) <==> IsRoot(g, root, b) && root.tenant == tenant
  {
    if IsRoot(g, root, b) && root.tenant == tenant {
      RootListed(g, root, b);
    }
  }

  /** Handling the next item leaves the store exact at the next boundary, for every tenant. */
  lemma SceneItem(cfg: Config, log: seq<Observation>, g: Graph, ents: Entity.Entities, deps: Dependencies,
                  scenes: Scenes, r: nat, c: nat, n: nat)
    requires n < c <= r <= |log| && UniqueObservations(log)
    requires GraphAt(g, log, cfg, r, c) && ScenesExact(g, scenes, n)
    requires AttackSceneProjection.Step(g, ents, deps, scenes, ItemAt(log, n + 1)).Done?
    ensures ScenesExact(g, AttackSceneProjection.Step(g, ents, deps, scenes, ItemAt(log, n + 1)).state, n + 1)
  {
    hide GraphAt, UniqueObservations, WellFormed, SameRows, IsRoot, IsPlan, Shows, ScenesExact, Remerged, Plannable, Roots;
    ExactWellFormed(g, log, cfg, r, c);
    var tenant := log[n].tenant;
    var roots := Roots(g, tenant, n + 1);
    assert forall root | root in roots :: Mergeable(g, ents, scenes, n + 1, root);
    var scenes' := MergedScenes(g, scenes, n + 1, roots);
    forall root: RelationshipId
      ensures root in scenes' <==> IsRoot(g, root, n + 1)
      ensures root in scenes' ==> exists p :: IsPlan(g, root, n + 1, p) && Shows(scenes'[root], p)
    {
      RootsMember(g, tenant, n + 1, root);
      if root.tenant == tenant {
        OwnScene(g, scenes, n, n + 1, root);
      } else {
        OtherScene(cfg, log, g, scenes, r, c, n, root);
      }
    }
    MakeExact(g, scenes', n + 1);
  }

  lemma MakeExact(g: Graph, scenes: Scenes, b: nat)
    requires forall root: RelationshipId :: root in scenes <==> IsRoot(g, root, b)
    requires forall root | root in scenes :: exists p :: IsPlan(g, root, b, p) && Shows(scenes[root], p)
    ensures ScenesExact(g, scenes, b)
  {
    hide IsRoot, IsPlan, Shows;
  }

  lemma OwnScene(g: Graph, scenes: Scenes, n: nat, b: nat, root: RelationshipId)
    requires WellFormed(g) && ScenesExact(g, scenes, n) && b == n + 1
    ensures root in scenes ==> IsRoot(g, root, b)
    ensures IsRoot(g, root, b) && Remerged(g, scenes, b, root).Some? ==>
      exists p :: IsPlan(g, root, b, p) && Shows(Remerged(g, scenes, b, root).value, p)
  {
    hide WellFormed, IsRoot, IsPlan, Shows, Merge;
    if root in scenes {
      LaterRoot(g, root, n, b);
    }
    if IsRoot(g, root, b) && Remerged(g, scenes, b, root).Some? {
      var p :| IsPlan(g, root, b, p);
      RemergedShows(g, scenes, n, root, p);
    }
  }

  lemma OtherScene(cfg: Config, log: seq<Observation>, g: Graph, scenes: Scenes, r: nat, c: nat, n: nat, root: RelationshipId)
    requires n < c <= r <= |log| && UniqueObservations(log)
    requires GraphAt(g, log, cfg, r, c) && WellFormed(g) && ScenesExact(g, scenes, n) && root.tenant != log[n].tenant
    ensures root in scenes <==> IsRoot(g, root, n + 1)
    ensures root in scenes ==> exists p :: IsPlan(g, root, n + 1, p) && Shows(scenes[root], p)
  {
    hide GraphAt, UniqueObservations, WellFormed, SameRows, IsRoot, IsPlan, Shows, ScenesExact;
    forall k | k in g.lineage && k.rid.tenant == root.tenant
      ensures g.lineage[k].seqNo != n + 1
    {
      LineagePosition(g, log, cfg, r, c, k);
    }
    OtherTenantQuiet(g, n, root.tenant);
    ScenesCarryOver(g, n, g, n + 1, scenes, root);
  }

  /* ----- The four handlers on the shared tables ----- */

  // The tables when the named projector stands at k and the others where s has them.
  ghost predicate StandsAt(cfg: Config, s: System, name: ProjectorName, t: Tables, k: nat) {
    var e, r := s.entity.checkpoint.last, s.relationship.checkpoint.last;
    var c, n := s.correlation.checkpoint.last, s.scene.checkpoint.last;
    match name
    case EntityProjector => TablesAt(cfg, s.log, t, k, r, c, n)
    case RelationshipProjector => TablesAt(cfg, s.log, t, e, k, c, n)
    case CorrelationProjector => TablesAt(cfg, s.log, t, e, r, k, n)
    case SceneProjector => TablesAt(cfg, s.log, t, e, r, c, k)
  }

  /** A handled item keeps the tables exact, whichever projector handles it. */
  lemma HandlerKeeps(cfg: Config, s: System, name: ProjectorName, t: Tables, k: nat)
    requires UniqueObservations(s.log) && StandsAt(cfg, s, name, t, k) && k < |s.log|
    requires HandlerOf(cfg, s, name)(t, ItemAt(s.log, k + 1)).Done?
    ensures StandsAt(cfg, s, name, HandlerOf(cfg, s, name)(t, ItemAt(s.log, k + 1)).state, k + 1)
  {
    hide UniqueObservations, EntitiesAt, GraphAt, ScenesExact, Items, Entity.Step, Relationship.Step, Correlation.Step,
      AttackSceneProjection.Step;
    var r, c, n := s.relationship.checkpoint.last, s.correlation.checkpoint.last, s.scene.checkpoint.last;
    match name
    case EntityProjector =>
      EntityItem(t.entities, s.log, k);
    case RelationshipProjector =>
      RelationshipItem(cfg, s.log, t.graph, k, c);
      ScenesMoved(cfg, s.log, t.graph, RelationshipStep(cfg, t, ItemAt(s.log, k + 1)).state.graph, t.scenes, k, c, k + 1, c, n);
    case CorrelationProjector =>
      CorrelationItem(cfg, s.log, t.graph, r, k);
      ScenesMoved(cfg, s.log, t.graph, CorrelationStep(cfg, s.log, r, t, ItemAt(s.log, k + 1)).state.graph, t.scenes,
                  r, k, r, k + 1, n);
    case SceneProjector =>
      GateHeld(t.graph, t.entities, DependenciesOf(s), t.scenes, ItemAt(s.log, k + 1));
      SceneItem(cfg, s.log, t.graph, t.entities, DependenciesOf(s), t.scenes, r, c, k);
  }

  lemma GateHeld(g: Graph, ents: Entity.Entities, deps: Dependencies, scenes: Scenes, item: Item)
    requires AttackSceneProjection.Step(g, ents, deps, scenes, item).Done?
    ensures Ready(deps, item.seqNo)
  {
  }
}
