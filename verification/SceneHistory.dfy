/** What becomes of stored scenes over a run. */
module SceneHistory {
  import opened Domain
  import opened Spans
  import opened RelationshipGraph
  import opened CorrelationRules
  import opened ProjectionRunner
  import opened AttackScenePlanner
  import opened AttackSceneProjection
  import opened Pipeline
  import Correlation = CorrelationProjection
  import Relationship = RelationshipProjection
  import Entity = EntityProjection

  // No operator touches a scene.
  predicate Automatic(steps: seq<Step>) {
    forall i | 0 <= i < |steps| :: !steps[i].SetSceneState?
  }

  predicate NoneContained(scenes: Scenes) {
    forall root | root in scenes :: scenes[root].state !in {ContainedState, ClosedState}
  }

  // What later work leaves of a stored scene: its state does not regress, an operator's word is kept,
  // its members, observations and transitions stay, the latter two unchanged.
  predicate Kept(before: StoredScene, after: StoredScene) {
    && StateOrder(before.state) <= StateOrder(after.state)
    && (before.state in {ContainedState, ClosedState} ==> after.state == before.state)
    && Extends(before, after)
  }

  predicate Extends(before: StoredScene, after: StoredScene) {
    && before.relationships.Keys <= after.relationships.Keys
    && before.entities.Keys <= after.entities.Keys
    && (forall o | o in before.observations :: o in after.observations && after.observations[o] == before.observations[o])
    && (forall k | k in before.transitions :: k in after.transitions && after.transitions[k] == before.transitions[k])
  }

  predicate ScenesKept(before: Scenes, after: Scenes) {
    forall root | root in before :: root in after && Kept(before[root], after[root])
  }

  lemma {:induction false} WritesKeepRows(rows: map<TransitionKey, TransitionRow>, ts: seq<Transition>)
    requires WriteTransitions(rows, ts).Some?
    ensures forall k | k in rows :: k in WriteTransitions(rows, ts).value && WriteTransitions(rows, ts).value[k] == rows[k]
  {
    if ts != [] {
      WritesKeepRows(rows, ts[..|ts| - 1]);
    }
  }

  lemma MergeKeeps(s: StoredScene, p: Plan)
    requires Merge(Some(s), p).Some?
    ensures Kept(s, Merge(Some(s), p).value)
  {
    hide WriteTransitions;
    WritesKeepRows(s.transitions, p.transitions);
  }

  lemma HandlerKeepsScenes(g: Graph, ents: Entity.Entities, deps: Dependencies, scenes: Scenes, item: Item)
    requires AttackSceneProjection.Step(g, ents, deps, scenes, item).Done?
    ensures ScenesKept(scenes, AttackSceneProjection.Step(g, ents, deps, scenes, item).state)
  {
    hide IsRoot, Plannable, IsPlan, Merge, Kept, Roots;
    var b, roots := item.seqNo, Roots(g, item.obs.tenant, item.seqNo);
    var after := MergedScenes(g, scenes, b, roots);
    forall root | root in scenes
      ensures root in after && Kept(scenes[root], after[root])
    {
      if root in roots {
        assert Mergeable(g, ents, scenes, b, root);
        MergeKeeps(scenes[root], PlanOf(g, root, b));
      } else {
        KeptReflexive(scenes[root]);
      }
    }
  }

  lemma KeptReflexive(a: StoredScene)
    ensures Kept(a, a)
  {
  }

  lemma ScenesKeptReflexive(a: Scenes)
    ensures ScenesKept(a, a)
  {
  }

  lemma KeptTransitive(a: StoredScene, b: StoredScene, c: StoredScene)
    requires Kept(a, b) && Kept(b, c)
    ensures Kept(a, c)
  {
  }

  lemma ScenesKeptTransitive(a: Scenes, b: Scenes, c: Scenes)
    requires ScenesKept(a, b) && ScenesKept(b, c)
    ensures ScenesKept(a, c)
  {
    hide Kept;
    forall root | root in a
      ensures root in c && Kept(a[root], c[root])
    {
      KeptTransitive(a[root], b[root], c[root]);
    }
  }

  lemma AnyHandlerKeepsScenes(cfg: Config, s: System, name: ProjectorName, t: Tables, item: Item)
    requires HandlerOf(cfg, s, name)(t, item).Done?
    ensures ScenesKept(t.scenes, HandlerOf(cfg, s, name)(t, item).state.scenes)
  {
    hide ScenesKept, Entity.Step, Relationship.Step, Correlation.Step, AttackSceneProjection.Step;
    ScenesKeptReflexive(t.scenes);
    if name.SceneProjector? {
      HandlerKeepsScenes(t.graph, t.entities, DependenciesOf(s), t.scenes, item);
    }
  }

  /** Whatever a batch does, no stored scene is lost, regresses or sheds a member, no transition row is
      revised, and contained or closed scenes stay as the operator left them. */
  lemma BatchKeepsScenes(cfg: Config, s: System, name: ProjectorName, limit: int, retry: bool, faults: nat -> Fault)
    ensures ScenesKept(s.tables.scenes, BatchOf(cfg, s, name, limit, retry, faults).state.scenes)
  {
    hide RunBatch, ScenesKept, HandlerOf;
    var entries, h := EntriesOfLog(s.log), HandlerOf(cfg, s, name);
    ScenesKeptReflexive(s.tables.scenes);
    forall t: Tables, item | ScenesKept(s.tables.scenes, t.scenes) && h(t, item).Done?
      ensures ScenesKept(s.tables.scenes, h(t, item).state.scenes)
    {
      AnyHandlerKeepsScenes(cfg, s, name, t, item);
      ScenesKeptTransitive(s.tables.scenes, t.scenes, h(t, item).state.scenes);
    }
    BatchKeepsState(entries, |s.log|, h, faults, limit, retry, ProjectorOf(s, name), s.tables,
                    (t: Tables) => ScenesKept(s.tables.scenes, t.scenes));
  }

  lemma HandlerContainsNothing(cfg: Config, s: System, name: ProjectorName, t: Tables, item: Item)
    requires HandlerOf(cfg, s, name)(t, item).Done? && NoneContained(t.scenes)
    ensures NoneContained(HandlerOf(cfg, s, name)(t, item).state.scenes)
  {
    hide NoneContained, Entity.Step, Relationship.Step, Correlation.Step, AttackSceneProjection.Step;
    if name.SceneProjector? {
      MergeContainsNothing(t.graph, t.entities, DependenciesOf(s), t.scenes, item);
    }
  }

  lemma BatchContainsNothing(cfg: Config, s: System, name: ProjectorName, limit: int, retry: bool, faults: nat -> Fault)
    requires NoneContained(s.tables.scenes)
    ensures NoneContained(BatchOf(cfg, s, name, limit, retry, faults).state.scenes)
  {
    hide RunBatch, NoneContained, HandlerOf;
    var entries, h := EntriesOfLog(s.log), HandlerOf(cfg, s, name);
    forall t: Tables, item | NoneContained(t.scenes) && h(t, item).Done?
      ensures NoneContained(h(t, item).state.scenes)
    {
      HandlerContainsNothing(cfg, s, name, t, item);
    }
    BatchKeepsState(entries, |s.log|, h, faults, limit, retry, ProjectorOf(s, name), s.tables,
                    (t: Tables) => NoneContained(t.scenes));
  }

  lemma MergeContainsNothing(g: Graph, ents: Entity.Entities, deps: Dependencies, scenes: Scenes, item: Item)
    requires AttackSceneProjection.Step(g, ents, deps, scenes, item).Done? && NoneContained(scenes)
    ensures NoneContained(AttackSceneProjection.Step(g, ents, deps, scenes, item).state)
  {
    hide IsRoot, Plannable, Contained, Covers, SceneObservations, SceneEntities, SceneRelationships, Roots;
    var b, roots := item.seqNo, Roots(g, item.obs.tenant, item.seqNo);
    var after := MergedScenes(g, scenes, b, roots);
    forall root | root in after
      ensures after[root].state !in {ContainedState, ClosedState}
    {
      if root in roots {
        assert Mergeable(g, ents, scenes, b, root);
        PlannedState(g, root, b, PlanOf(g, root, b));
      }
    }
  }

  lemma PlannedState(g: Graph, root: RelationshipId, b: nat, p: Plan)
    requires IsPlan(g, root, b, p)
    ensures p.state == ObservedState || p.state == ConfirmedState
  {
  }

  lemma {:induction false} AutomaticStates(cfg: Config, steps: seq<Step>)
    requires Automatic(steps)
    ensures NoneContained(After(cfg, steps).tables.scenes)
  {
    hide NoneContained, BatchOf;
    if steps == [] {
      NothingContained();
    } else {
      var init := steps[..|steps| - 1];
      AutomaticStates(cfg, init);
      match steps[|steps| - 1]
      case RunProjector(name, limit, retry, faults) =>
        BatchContainsNothing(cfg, After(cfg, init), name, limit, retry, faults);
      case Ingest(_) =>
      case PauseProjector(_) =>
      case ResumeProjector(_) =>
    }
  }

  lemma NothingContained()
    ensures NoneContained(map[])
  {
  }

  /* ----- Whole runs ----- */

  // As Kept, but an operator may have moved the scene on.
  predicate Forward(before: Scenes, after: Scenes) {
    forall root | root in before ::
      root in after && StateOrder(before[root].state) <= StateOrder(after[root].state) && Extends(before[root], after[root])
  }

  lemma KeptIsForward(a: Scenes, b: Scenes)
    requires ScenesKept(a, b)
    ensures Forward(a, b)
  {
    hide Extends;
  }

  // Containing an open scene and closing one not yet closed are all an operator can do.
  lemma OperatorForward(scenes: Scenes, root: RelationshipId, state: IncidentState)
    ensures Forward(scenes, OperatorState(scenes, root, state))
    ensures var scenes' := OperatorState(scenes, root, state);
      && scenes'.Keys == scenes.Keys
      && (forall r | r in scenes && r != root :: scenes'[r] == scenes[r])
      && (root in scenes ==>
            var was := scenes[root].state;
            var open := was == PotentialState || was == ObservedState || was == ConfirmedState;
            scenes'[root] == scenes[root].(state :=
              if (state == ContainedState && open) || (state == ClosedState && was != ClosedState) then state else was))
  {
  }

  lemma ForwardTransitive(a: Scenes, b: Scenes, c: Scenes)
    requires Forward(a, b) && Forward(b, c)
    ensures Forward(a, c)
  {
    hide Extends;
    forall root | root in a
      ensures Extends(a[root], c[root])
    {
      ExtendsTransitive(a[root], b[root], c[root]);
    }
  }

  lemma ExtendsTransitive(a: StoredScene, b: StoredScene, c: StoredScene)
    requires Extends(a, b) && Extends(b, c)
    ensures Extends(a, c)
  {
  }

  lemma StepForward(cfg: Config, s: System, step: Step)
    ensures Forward(s.tables.scenes, Apply(cfg, s, step).tables.scenes)
  {
    hide BatchOf, Forward, ScenesKept, OperatorState;
    ScenesKeptReflexive(s.tables.scenes);
    KeptIsForward(s.tables.scenes, s.tables.scenes);
    match step
    case RunProjector(name, limit, retry, faults) =>
      BatchKeepsScenes(cfg, s, name, limit, retry, faults);
      KeptIsForward(s.tables.scenes, BatchOf(cfg, s, name, limit, retry, faults).state.scenes);
    case SetSceneState(root, state) => OperatorForward(s.tables.scenes, root, state);
    case _ =>
  }

  /** Over any run no scene is ever lost, regresses, sheds a member or an observation, or has a
      recorded transition revised. */
  lemma {:induction false} ScenesOnlyGrow(cfg: Config, steps: seq<Step>, n: nat)
    requires n <= |steps|
    ensures Forward(After(cfg, steps[..n]).tables.scenes, After(cfg, steps).tables.scenes)
    decreases |steps|
  {
    hide Apply, Forward, ScenesKept;
    var scenes := After(cfg, steps[..n]).tables.scenes;
    if n == |steps| {
      assert steps[..n] == steps;
      ScenesKeptReflexive(scenes);
      KeptIsForward(scenes, scenes);
    } else {
      var init := steps[..|steps| - 1];
      assert init[..n] == steps[..n];
      ScenesOnlyGrow(cfg, init, n);
      StepForward(cfg, After(cfg, init), steps[|steps| - 1]);
      ForwardTransitive(scenes, After(cfg, init).tables.scenes, After(cfg, steps).tables.scenes);
    }
  }
}
