/** The main results, stated over runs: what holds after any sequence of ingests, batches with any limits
    and faults, pauses, resumes and operator commands. */
module Guarantees {
  import opened Domain
  import opened RelationshipGraph
  import opened CorrelationRules
  import opened CorrelationHistory
  import opened ProjectionRunner
  import opened Spans
  import opened AttackScenePlanner
  import opened AttackSceneFacts
  import opened Pipeline
  import opened PipelineTheorems
  import opened PipelineProgress
  import opened GraphInvariants
  import opened CorrelationExactness

  /** Stored scenes are a function of the log and the scene checkpoint: runs whose logs extend one another
      and whose scene projectors stand at one position store the same scenes. */
  lemma {:induction false} StoredScenesAgree(cfg: Config, steps: seq<Step>, steps': seq<Step>)
    requires After(cfg, steps).log <= After(cfg, steps').log
    requires After(cfg, steps).scene.checkpoint.last == After(cfg, steps').scene.checkpoint.last
    ensures SameScenes(After(cfg, steps).tables.scenes, After(cfg, steps').tables.scenes)
  {
    hide Invariant, SameScenes, After;
    ReachableInvariant(cfg, steps);
    ReachableInvariant(cfg, steps');
    ScenesDependOnCheckpoint(cfg, After(cfg, steps), After(cfg, steps'));
  }

  /** No planner invariant error is reachable: after any run, every root can be planned at every boundary
      the dependencies have reached. */
  lemma {:induction false} EveryRootPlans(cfg: Config, steps: seq<Step>, root: RelationshipId, b: nat)
    requires b <= After(cfg, steps).entity.checkpoint.last && b <= After(cfg, steps).relationship.checkpoint.last
    requires b <= After(cfg, steps).correlation.checkpoint.last
    requires IsRoot(After(cfg, steps).tables.graph, root, b)
    ensures Plannable(After(cfg, steps).tables.graph, After(cfg, steps).tables.entities, root, b)
    ensures exists p :: IsPlan(After(cfg, steps).tables.graph, root, b, p)
  {
    hide After, Bookkeeping, UniqueObservations, TablesAt, Plannable, IsPlan, IsRoot;
    ReachableInvariant(cfg, steps);
    var s := After(cfg, steps);
    PlannerSound(cfg, s.log, s.tables, s.entity.checkpoint.last, s.relationship.checkpoint.last,
                 s.correlation.checkpoint.last, s.scene.checkpoint.last, root, b);
  }

  /** Snapshot stability over runs: a plan at a boundary does not depend on how far the upstream
      projectors have run past it, in what order, or on what was appended since. */
  lemma {:induction false} BoundedPlansAgree(cfg: Config, steps: seq<Step>, steps': seq<Step>, root: RelationshipId, b: nat, p: Plan)
    requires After(cfg, steps).log <= After(cfg, steps').log
    requires Ready(DependenciesOf(After(cfg, steps)), b) && Ready(DependenciesOf(After(cfg, steps')), b)
    ensures IsRoot(After(cfg, steps).tables.graph, root, b) <==> IsRoot(After(cfg, steps').tables.graph, root, b)
    ensures IsRoot(After(cfg, steps).tables.graph, root, b) ==>
      (IsPlan(After(cfg, steps).tables.graph, root, b, p) <==> IsPlan(After(cfg, steps').tables.graph, root, b, p))
  {
    hide Invariant, After, IsRoot, IsPlan;
    ReachableInvariant(cfg, steps);
    ReachableInvariant(cfg, steps');
    PlansDependOnBoundary(cfg, After(cfg, steps), After(cfg, steps'), root, b, p);
  }

  // How the named projector's handler ends on its next item.
  ghost function NextAttempt(cfg: Config, s: System, name: ProjectorName): Attempt<Tables>
    requires ProjectorOf(s, name).checkpoint.last < |s.log|
  {
    HandlerOf(cfg, s, name)(s.tables, ItemAt(s.log, ProjectorOf(s, name).checkpoint.last + 1))
  }

  /** The scene handler only ever waits: on its next item it succeeds if its dependencies are ready and
      otherwise refuses. No membership, observation or transition mismatch is reachable. */
  lemma {:induction false} SceneHandlerOnlyWaits(cfg: Config, steps: seq<Step>)
    requires After(cfg, steps).scene.checkpoint.last < |After(cfg, steps).log|
    ensures var s := After(cfg, steps);
      var n := s.scene.checkpoint.last;
      if n < s.entity.checkpoint.last && n < s.relationship.checkpoint.last && n < s.correlation.checkpoint.last
      then NextAttempt(cfg, s, SceneProjector).Done? else NextAttempt(cfg, s, SceneProjector).Aborted?
  {
    hide After, Bookkeeping, UniqueObservations, TablesAt, HandlerOf;
    ReachableInvariant(cfg, steps);
    SceneSucceeds(cfg, After(cfg, steps), After(cfg, steps).tables, After(cfg, steps).scene.checkpoint.last);
  }

  /** Behind the entity projector, the correlation handler only ever waits for the relationship
      projector, unless its registry refuses what the rules derive. */
  lemma {:induction false} CorrelationHandlerOnlyWaits(cfg: Config, steps: seq<Step>)
    requires After(cfg, steps).correlation.checkpoint.last < After(cfg, steps).entity.checkpoint.last <= |After(cfg, steps).log|
    ensures var s := After(cfg, steps);
      if s.correlation.checkpoint.last < s.relationship.checkpoint.last && Permitted(cfg, s.log, s.correlation.checkpoint.last + 1)
      then NextAttempt(cfg, s, CorrelationProjector).Done? else NextAttempt(cfg, s, CorrelationProjector).Aborted?
  {
    hide After, Bookkeeping, UniqueObservations, TablesAt, HandlerOf;
    ReachableInvariant(cfg, steps);
    CorrelationSucceeds(cfg, After(cfg, steps), After(cfg, steps).tables, After(cfg, steps).correlation.checkpoint.last);
  }

  /** Behind the entity projector, the relationship handler never raises: it rejects as poison exactly
      the edges that lack an object or break the ontology. */
  lemma {:induction false} RelationshipHandlerNeverRaises(cfg: Config, steps: seq<Step>)
    requires After(cfg, steps).relationship.checkpoint.last < After(cfg, steps).entity.checkpoint.last <= |After(cfg, steps).log|
    ensures var s := After(cfg, steps);
      var o := s.log[s.relationship.checkpoint.last];
      if o.relationship.None? || (o.obj.Some? && ValidEdge(cfg.ontology, o.relationship.value, o.subject.etype, o.obj.value.etype))
      then NextAttempt(cfg, s, RelationshipProjector).Done? else NextAttempt(cfg, s, RelationshipProjector).Poison?
  {
    hide After, Bookkeeping, UniqueObservations, TablesAt, HandlerOf;
    ReachableInvariant(cfg, steps);
    RelationshipSucceeds(cfg, After(cfg, steps), After(cfg, steps).tables, After(cfg, steps).relationship.checkpoint.last);
  }

  /** After any run, a stored scene that holds a compromise or a lateral move is confirmed, or was moved
      on from there by an operator. */
  lemma {:induction false} ActiveScenesConfirmed(cfg: Config, steps: seq<Step>, root: RelationshipId, rid: RelationshipId)
    requires root in After(cfg, steps).tables.scenes && rid in After(cfg, steps).tables.scenes[root].relationships
    requires rid.rtype == Compromised || rid.rtype == MovedLaterallyTo
    ensures After(cfg, steps).tables.scenes[root].state in {ConfirmedState, ContainedState, ClosedState}
  {
    hide After, Bookkeeping, UniqueObservations, EntitiesAt, GraphAt, IsRoot, IsPlan, WellFormed;
    ReachableInvariant(cfg, steps);
    var s := After(cfg, steps);
    var g, b := s.tables.graph, s.scene.checkpoint.last;
    ExactWellFormed(g, s.log, cfg, s.relationship.checkpoint.last, s.correlation.checkpoint.last);
    var p :| IsPlan(g, root, b, p) && Shows(s.tables.scenes[root], p);
    MemberConfirms(g, root, b, p, rid);
  }

  lemma MemberConfirms(g: Graph, root: RelationshipId, b: nat, p: Plan, rid: RelationshipId)
    requires WellFormed(g) && IsRoot(g, root, b) && IsPlan(g, root, b, p) && rid in p.relationships
    requires rid.rtype == Compromised || rid.rtype == MovedLaterallyTo
    ensures p.state == ConfirmedState
  {
    hide WellFormed, IsRoot, TransitionsExact, Reachable, RootSupports, SceneObservations, SceneEntities, Covers;
    RootShape(g, root, b);
    ConfirmedIffJoined(g, root, b, p);
    if rid in RootSupports(g, root, b) {
      var _ := RootSupportMember(g, root, b, rid);
    }
  }

  /** Checkpoints after any run: correlation never passes relationship, scenes never pass their three
      dependencies, and none passes the log. */
  lemma {:induction false} CheckpointsOrdered(cfg: Config, steps: seq<Step>)
    ensures var s := After(cfg, steps);
      && s.correlation.checkpoint.last <= s.relationship.checkpoint.last <= |s.log|
      && s.scene.checkpoint.last <= s.correlation.checkpoint.last
      && s.scene.checkpoint.last <= s.entity.checkpoint.last <= |s.log|
  {
    hide After, Bookkeeping, UniqueObservations, EntitiesAt, GraphAt, ScenesExact;
    ReachableInvariant(cfg, steps);
  }

  // n fault-free full batches of one projector, as steps.
  function Batches(name: ProjectorName, n: nat): seq<Step> {
    if n == 0 then [] else Batches(name, n - 1) + [RunProjector(name, MAX_LIMIT, false, NO_FAULTS)]
  }

  lemma {:induction false} AfterBatches(cfg: Config, steps: seq<Step>, name: ProjectorName, n: nat)
    ensures After(cfg, steps + Batches(name, n)) == RunTimes(cfg, After(cfg, steps), name, n)
    decreases n
  {
    hide Apply, After;
    if n == 0 {
      assert steps + Batches(name, n) == steps;
    } else {
      hide Batches;
      var run := RunProjector(name, MAX_LIMIT, false, NO_FAULTS);
      AfterOne(cfg, steps, run);
      AfterBatches(cfg, steps + [run], name, n - 1);
      BatchesShift(name, n);
      assert steps + Batches(name, n) == steps + [run] + Batches(name, n - 1);
    }
  }

  lemma AfterNothing(cfg: Config)
    ensures After(cfg, []) == START
  {
  }

  lemma AfterOne(cfg: Config, steps: seq<Step>, step: Step)
    ensures After(cfg, steps + [step]) == Apply(cfg, After(cfg, steps), step)
  {
    hide Apply;
    assert (steps + [step])[..|steps|] == steps;
  }

  lemma {:induction false} BatchesShift(name: ProjectorName, n: nat)
    requires n > 0
    ensures Batches(name, n) == [RunProjector(name, MAX_LIMIT, false, NO_FAULTS)] + Batches(name, n - 1)
  {
    if n > 1 {
      BatchesShift(name, n - 1);
    }
  }

  // Enough batches of each projector, in dependency order.
  function CatchUpSteps(n: nat): seq<Step> {
    Batches(EntityProjector, n) + Batches(RelationshipProjector, n) + Batches(CorrelationProjector, n) + Batches(SceneProjector, n)
  }

  /** Nothing a run can do strands the projectors: after any run over a clean log that leaves none of
      them paused or failed, enough batches in dependency order bring all four to the end of the log. */
  lemma {:induction false} EveryRunCatchesUp(cfg: Config, steps: seq<Step>, n: nat)
    requires Clean(cfg, After(cfg, steps).log) && |After(cfg, steps).log| <= n * MAX_LIMIT
    requires forall name :: ProjectorOf(After(cfg, steps), name).checkpoint.status.Idle?
    ensures After(cfg, steps + CatchUpSteps(n)).log == After(cfg, steps).log
    ensures forall name :: ProjectorOf(After(cfg, steps + CatchUpSteps(n)), name).checkpoint.last == |After(cfg, steps).log|
  {
    hide After, Clean, Invariant, RunTimes;
    ReachableInvariant(cfg, steps);
    CatchUp(cfg, After(cfg, steps), n);
    var a := steps + Batches(EntityProjector, n);
    var b := a + Batches(RelationshipProjector, n);
    var c := b + Batches(CorrelationProjector, n);
    AfterBatches(cfg, steps, EntityProjector, n);
    AfterBatches(cfg, a, RelationshipProjector, n);
    AfterBatches(cfg, b, CorrelationProjector, n);
    AfterBatches(cfg, c, SceneProjector, n);
    assert steps + CatchUpSteps(n) == c + Batches(SceneProjector, n);
  }
}
