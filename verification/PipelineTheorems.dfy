/** What holds after any interleaving of ingests, batches of the four projectors and operator commands. */
module PipelineTheorems {
  import opened Domain
  import opened RelationshipGraph
  import opened CorrelationRules
  import opened CorrelationHistory
  import opened ProjectionRunner
  import opened AttackScenePlanner
  import opened AttackSceneFacts
  import opened AttackSceneProjection
  import opened GraphInvariants
  import opened Pipeline
  import opened PipelineSteps
  import opened SceneHistory
  import Entity = EntityProjection

  /* ----- The invariant holds in every reachable state ----- */

  lemma StartInvariant(cfg: Config)
    ensures Invariant(cfg, START)
  {
    hide WellFormed;
    assert Items([], 0) == {};
    assert Derivations([], cfg, 0) == {};
    assert Stated([], 0) == {};
    assert Entity.ItemClaims({}) == {};
    assert EntriesAt([], 0, {}) == {};
    assert GraphAt(EMPTY_GRAPH, [], cfg, 0, 0);
    assert ScenesExact(EMPTY_GRAPH, map[], 0);
  }

  lemma EntriesAreItems(log: seq<Observation>)
    ensures Contiguous(EntriesOfLog(log), |log|)
    ensures forall k: nat | 1 <= k <= |log| :: Item(k, EntriesOfLog(log)[k]) == ItemAt(log, k)
  {
  }

  /** A batch keeps the tables exact at wherever it leaves its checkpoint. */
  lemma BatchKeeps(cfg: Config, s: System, name: ProjectorName, limit: int, retry: bool, faults: nat -> Fault)
    requires Invariant(cfg, s)
    ensures var run := BatchOf(cfg, s, name, limit, retry, faults);
      StandsAt(cfg, s, name, run.state, run.projector.checkpoint.last)
  {
    hide UniqueObservations, TablesAt, RunBatch, HandlerOf, EntriesOfLog, Consistent;
    var entries, h := EntriesOfLog(s.log), HandlerOf(cfg, s, name);
    EntriesAreItems(s.log);
    forall t, k: nat | StandsAt(cfg, s, name, t, k) && k < |s.log| && k + 1 in entries && h(t, Item(k + 1, entries[k + 1])).Done?
      ensures StandsAt(cfg, s, name, h(t, Item(k + 1, entries[k + 1])).state, k + 1)
    {
      HandlerKeeps(cfg, s, name, t, k);
    }
    BatchPreserves(entries, |s.log|, h, faults, limit, retry, ProjectorOf(s, name), s.tables,
                   (t, k) => StandsAt(cfg, s, name, t, k));
  }

  lemma RunKeeps(cfg: Config, s: System, name: ProjectorName, limit: int, retry: bool, faults: nat -> Fault)
    requires Invariant(cfg, s)
    ensures Invariant(cfg, Apply(cfg, s, RunProjector(name, limit, retry, faults)))
  {
    hide UniqueObservations, TablesAt, RunBatch, HandlerOf, EntriesOfLog, Consistent;
    BatchKeeps(cfg, s, name, limit, retry, faults);
    BatchConsistent(EntriesOfLog(s.log), |s.log|, HandlerOf(cfg, s, name), faults, limit, retry, ProjectorOf(s, name), s.tables);
  }

  lemma IngestKeeps(cfg: Config, s: System, o: Observation)
    requires Invariant(cfg, s)
    ensures Invariant(cfg, Apply(cfg, s, Ingest(o)))
  {
    hide EntriesOfLog, Consistent, GraphAt, ScenesExact, Entity.EntitiesExact, Items, Contiguous;
    if !AlreadyStored(s.log, o) {
      var log, high := s.log + [o], |s.log|;
      var entries := EntriesOfLog(s.log);
      EntriesAppend(s.log, o);
      AppendConsistent(entries, high, s.entity, o);
      AppendConsistent(entries, high, s.relationship, o);
      AppendConsistent(entries, high, s.correlation, o);
      AppendConsistent(entries, high, s.scene, o);
      ItemsPrefix(s.log, log, s.entity.checkpoint.last);
      ExactAfterAppend(s.tables.graph, s.log, log, cfg, s.relationship.checkpoint.last, s.correlation.checkpoint.last);
    }
  }

  lemma EntriesAppend(log: seq<Observation>, o: Observation)
    ensures EntriesOfLog(log + [o]) == EntriesOfLog(log)[|log| + 1 := o]
  {
  }

  lemma OperatorKeeps(cfg: Config, s: System, root: RelationshipId, state: IncidentState)
    requires Invariant(cfg, s)
    ensures Invariant(cfg, Apply(cfg, s, SetSceneState(root, state)))
  {
    hide Consistent, EntriesOfLog, UniqueObservations, GraphAt, EntitiesAt, ScenesExact, OperatorState;
    OperatorShows(s.tables.graph, s.tables.scenes, s.scene.checkpoint.last, root, state);
  }

  lemma OperatorShows(g: Graph, scenes: Scenes, b: nat, root: RelationshipId, state: IncidentState)
    requires ScenesExact(g, scenes, b)
    ensures ScenesExact(g, OperatorState(scenes, root, state), b)
  {
    hide IsPlan, IsRoot;
    var scenes' := OperatorState(scenes, root, state);
    forall x | x in scenes'
      ensures exists p :: IsPlan(g, x, b, p) && Shows(scenes'[x], p)
    {
      var p :| IsPlan(g, x, b, p) && Shows(scenes[x], p);
      assert Shows(scenes'[x], p);
    }
  }

  lemma CommandKeeps(cfg: Config, s: System, name: ProjectorName)
    requires Invariant(cfg, s)
    ensures Invariant(cfg, Apply(cfg, s, PauseProjector(name))) && Invariant(cfg, Apply(cfg, s, ResumeProjector(name)))
  {
    hide UniqueObservations, TablesAt, EntriesOfLog, Consistent, Contiguous;
    PauseResumeConsistent(EntriesOfLog(s.log), |s.log|, ProjectorOf(s, name));
  }

  lemma StepKeeps(cfg: Config, s: System, step: Step)
    requires Invariant(cfg, s)
    ensures Invariant(cfg, Apply(cfg, s, step))
  {
    hide Invariant, Apply;
    match step
    case Ingest(o) => IngestKeeps(cfg, s, o);
    case RunProjector(name, limit, retry, faults) => RunKeeps(cfg, s, name, limit, retry, faults);
    case PauseProjector(name) => CommandKeeps(cfg, s, name);
    case ResumeProjector(name) => CommandKeeps(cfg, s, name);
    case SetSceneState(root, state) => OperatorKeeps(cfg, s, root, state);
  }

  /** In every reachable state the bookkeeping is consistent and the tables are exactly what the log
      and the four checkpoints determine. */
  lemma {:induction false} ReachableInvariant(cfg: Config, steps: seq<Step>)
    ensures Invariant(cfg, After(cfg, steps))
  {
    hide Invariant, Apply;
    if steps == [] {
      StartInvariant(cfg);
    } else {
      ReachableInvariant(cfg, steps[..|steps| - 1]);
      StepKeeps(cfg, After(cfg, steps[..|steps| - 1]), steps[|steps| - 1]);
    }
  }

  /* ----- Schedule independence ----- */

  // Equal but for what an operator contained or closed.
  predicate SameScene(a: StoredScene, b: StoredScene) {
    && a.(state := b.state) == b
    && (a.state == b.state || a.state in {ContainedState, ClosedState} || b.state in {ContainedState, ClosedState})
  }

  predicate SameScenes(a: Scenes, b: Scenes) {
    a.Keys == b.Keys && forall root | root in a :: SameScene(a[root], b[root])
  }

  predicate SameCheckpoints(s: System, t: System) {
    && s.entity.checkpoint.last == t.entity.checkpoint.last
    && s.relationship.checkpoint.last == t.relationship.checkpoint.last
    && s.correlation.checkpoint.last == t.correlation.checkpoint.last
    && s.scene.checkpoint.last == t.scene.checkpoint.last
  }

  lemma SameLogEntities(m: Entity.Entities, m': Entity.Entities, log: seq<Observation>, e: nat)
    requires e <= |log| && EntitiesAt(m, log, e) && EntitiesAt(m', log, e)
    ensures m == m'
  {
    hide Entity.EntitiesExact, Entity.ItemClaims, Entity.Identified;
    assert Entity.Sequenced(Items(log, e));
    Entity.ClaimsIdentified(Items(log, e));
    Entity.EntitiesUnique(m, m', Entity.ItemClaims(Items(log, e)));
  }

  lemma SameBoundaryScenes(g: Graph, scenes: Scenes, scenes': Scenes, b: nat)
    requires ScenesExact(g, scenes, b) && ScenesExact(g, scenes', b)
    ensures SameScenes(scenes, scenes')
  {
    hide IsPlan, IsRoot;
    forall root | root in scenes
      ensures root in scenes' && SameScene(scenes[root], scenes'[root])
    {
      var p :| IsPlan(g, root, b, p) && Shows(scenes[root], p);
      var q :| IsPlan(g, root, b, q) && Shows(scenes'[root], q);
      PlanUnique(g, root, b, p, q);
    }
  }

  /** Stored scenes depend only on the log and the scene checkpoint: not on how far the projectors
      they are planned from have run, nor on what the log has received since. */
  lemma ScenesDependOnCheckpoint(cfg: Config, s: System, t: System)
    requires Invariant(cfg, s) && Invariant(cfg, t) && s.log <= t.log
    requires s.scene.checkpoint.last == t.scene.checkpoint.last
    ensures SameScenes(s.tables.scenes, t.tables.scenes)
  {
    hide Bookkeeping, UniqueObservations, EntitiesAt, GraphAt, ScenesExact;
    var r, c, n := s.relationship.checkpoint.last, s.correlation.checkpoint.last, s.scene.checkpoint.last;
    ExactAfterAppend(s.tables.graph, s.log, t.log, cfg, r, c);
    ScenesMoved(cfg, t.log, s.tables.graph, t.tables.graph, s.tables.scenes, r, c,
                t.relationship.checkpoint.last, t.correlation.checkpoint.last, n);
    SameBoundaryScenes(t.tables.graph, s.tables.scenes, t.tables.scenes, n);
  }

  /** Schedule independence: two histories of ingests, batches of any limits, faults, rollbacks,
      pauses and retries that end with the same log and the same four checkpoints end with the same
      entities, relationships, lineage, derivations, supports and evidence, and the same scenes. */
  lemma {:induction false} ScheduleIndependence(cfg: Config, steps: seq<Step>, steps': seq<Step>)
    requires After(cfg, steps).log == After(cfg, steps').log
    requires SameCheckpoints(After(cfg, steps), After(cfg, steps'))
    ensures After(cfg, steps).tables.entities == After(cfg, steps').tables.entities
    ensures After(cfg, steps).tables.graph == After(cfg, steps').tables.graph
    ensures SameScenes(After(cfg, steps).tables.scenes, After(cfg, steps').tables.scenes)
    ensures Automatic(steps) && Automatic(steps') ==> After(cfg, steps).tables == After(cfg, steps').tables
  {
    hide Bookkeeping, UniqueObservations, EntitiesAt, GraphAt, ScenesExact, After, SameScenes, SameScene;
    ReachableInvariant(cfg, steps);
    ReachableInvariant(cfg, steps');
    var s, t := After(cfg, steps), After(cfg, steps');
    SameLogEntities(s.tables.entities, t.tables.entities, s.log, s.entity.checkpoint.last);
    SameLogGraph(cfg, s.log, s.tables.graph, t.tables.graph, s.relationship.checkpoint.last, s.correlation.checkpoint.last);
    ScenesDependOnCheckpoint(cfg, s, t);
    if Automatic(steps) && Automatic(steps') {
      AutomaticStates(cfg, steps);
      AutomaticStates(cfg, steps');
      SameAutomaticScenes(s.tables.scenes, t.tables.scenes);
    }
  }

  lemma SameLogGraph(cfg: Config, log: seq<Observation>, g: Graph, g': Graph, r: nat, c: nat)
    requires r <= |log| && c <= |log| && GraphAt(g, log, cfg, r, c) && GraphAt(g', log, cfg, r, c)
    ensures g == g'
  {
    hide Derivations, GraphExact;
    GraphUnique(g, g', log, r, Derivations(log, cfg, c));
  }

  lemma SameAutomaticScenes(a: Scenes, b: Scenes)
    requires SameScenes(a, b) && NoneContained(a) && NoneContained(b)
    ensures a == b
  {
  }
}
