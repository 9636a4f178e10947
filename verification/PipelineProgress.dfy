/** Which of the handlers' errors can occur in a reachable state: none of the planner's and the scene
    handler's, and of the correlation handler's none once the entity projector is past the item. */
module PipelineProgress {
  import opened Domain
  import opened RelationshipGraph
  import opened CorrelationRules
  import opened CorrelationHistory
  import opened ProjectionRunner
  import opened AttackScenePlanner
  import opened AttackSceneFacts
  import opened AttackSceneStability
  import opened AttackSceneProjection
  import opened GraphInvariants
  import opened Pipeline
  import opened PipelineSteps
  import opened PipelineTheorems
  import AttackSceneExistence
  import opened CorrelationExactness
  import CorrelationTheorems
  import Correlation = CorrelationProjection
  import Relationship = RelationshipProjection
  import Entity = EntityProjection

  /* ----- Plans ----- */

  /** Every validation of the planner succeeds on tables that have reached the boundary. */
  lemma PlannerSound(cfg: Config, log: seq<Observation>, t: Tables, e: nat, r: nat, c: nat, n: nat, root: RelationshipId, b: nat)
    requires TablesAt(cfg, log, t, e, r, c, n) && UniqueObservations(log)
    requires Ready(Dependencies(e, r, c), b) && IsRoot(t.graph, root, b)
    ensures Plannable(t.graph, t.entities, root, b)
    ensures exists p :: IsPlan(t.graph, root, b, p)
  {
    hide GraphAt, ScenesExact, UniqueObservations, WellFormed, EntitiesCover, IsRoot, Plannable, IsPlan,
      Entity.EntitiesExact, Entity.ItemClaims, Items;
    ExactWellFormed(t.graph, log, cfg, r, c);
    EntitiesCoverExact(t.graph, t.entities, log, cfg, e, r, c, b);
    GateSound(t.graph, t.entities, root, b);
    var p := AttackSceneExistence.PlanExists(t.graph, t.entities, root, b);
  }

  /** A plan depends on the log up to its boundary only: any two reachable states whose projectors
      have reached it, and whose logs extend one another, have the same roots and the same plans. */
  lemma PlansDependOnBoundary(cfg: Config, s: System, t: System, root: RelationshipId, b: nat, p: Plan)
    requires Invariant(cfg, s) && Invariant(cfg, t) && s.log <= t.log
    requires Ready(DependenciesOf(s), b) && Ready(DependenciesOf(t), b)
    ensures IsRoot(s.tables.graph, root, b) <==> IsRoot(t.tables.graph, root, b)
    ensures IsRoot(s.tables.graph, root, b) ==> (IsPlan(s.tables.graph, root, b, p) <==> IsPlan(t.tables.graph, root, b, p))
  {
    hide Bookkeeping, UniqueObservations, EntitiesAt, GraphAt, ScenesExact, IsRoot, IsPlan, WellFormed, SameRows;
    var g, g' := s.tables.graph, t.tables.graph;
    var r, c := s.relationship.checkpoint.last, s.correlation.checkpoint.last;
    var r', c' := t.relationship.checkpoint.last, t.correlation.checkpoint.last;
    ExactAfterAppend(g, s.log, t.log, cfg, r, c);
    ExactWellFormed(g, t.log, cfg, r, c);
    ExactWellFormed(g', t.log, cfg, r', c');
    ExactSameRows(g, g', t.log, cfg, r, c, r', c', b, root.tenant);
    SameRowsSymmetric(g, b, g', b, root.tenant);
    SnapshotStable(g, b, g', b, root, p);
    SnapshotStable(g', b, g, b, root, p);
  }

  /** Incremental storage equals recomputation: in every reachable state the stored scenes are those
      of the roots at the scene checkpoint, each showing the plan the planner computes from scratch,
      which succeeds. */
  lemma {:induction false} IncrementalEqualsRecompute(cfg: Config, steps: seq<Step>, root: RelationshipId)
    ensures var s := After(cfg, steps);
      var b := s.scene.checkpoint.last;
      && Ready(DependenciesOf(s), b)
      && (root in s.tables.scenes <==> IsRoot(s.tables.graph, root, b))
      && (root in s.tables.scenes ==>
            Plannable(s.tables.graph, s.tables.entities, root, b)
            && exists p :: IsPlan(s.tables.graph, root, b, p) && Shows(s.tables.scenes[root], p))
  {
    hide After, Bookkeeping, UniqueObservations, EntitiesAt, GraphAt, IsRoot, Plannable, IsPlan, Shows;
    ReachableInvariant(cfg, steps);
    var s := After(cfg, steps);
    if root in s.tables.scenes {
      PlannerSound(cfg, s.log, s.tables, s.entity.checkpoint.last, s.relationship.checkpoint.last,
                   s.correlation.checkpoint.last, s.scene.checkpoint.last, root, s.scene.checkpoint.last);
    }
  }

  /* ----- The scene handler raises only at its gate ----- */

  lemma SceneSucceeds(cfg: Config, s: System, t: Tables, k: nat)
    requires UniqueObservations(s.log) && StandsAt(cfg, s, SceneProjector, t, k) && k < |s.log|
    ensures var result := HandlerOf(cfg, s, SceneProjector)(t, ItemAt(s.log, k + 1));
      if Ready(DependenciesOf(s), k + 1) then result.Done? else result.Aborted?
  {
    hide UniqueObservations, EntitiesAt, GraphAt, ScenesExact, Plannable, Remerged, Roots, IsRoot;
    if Ready(DependenciesOf(s), k + 1) {
      var b, roots := k + 1, Roots(t.graph, s.log[k].tenant, k + 1);
      forall root | root in roots
        ensures Mergeable(t.graph, t.entities, t.scenes, b, root)
      {
        RootsMember(t.graph, s.log[k].tenant, b, root);
        RootMerges(cfg, s.log, t, s.entity.checkpoint.last, s.relationship.checkpoint.last, s.correlation.checkpoint.last, k, root);
      }
    }
  }

  lemma RootMerges(cfg: Config, log: seq<Observation>, t: Tables, e: nat, r: nat, c: nat, n: nat, root: RelationshipId)
    requires TablesAt(cfg, log, t, e, r, c, n) && UniqueObservations(log)
    requires Ready(Dependencies(e, r, c), n + 1) && IsRoot(t.graph, root, n + 1)
    ensures Mergeable(t.graph, t.entities, t.scenes, n + 1, root)
  {
    hide UniqueObservations, EntitiesAt, GraphAt, ScenesExact, Plannable, Remerged, IsRoot, IsPlan, WellFormed;
    PlannerSound(cfg, log, t, e, r, c, n, root, n + 1);
    ExactWellFormed(t.graph, log, cfg, r, c);
    var p :| IsPlan(t.graph, root, n + 1, p);
    RemergedShows(t.graph, t.scenes, n, root, p);
  }


  /** A scene batch in a reachable state: with its dependencies past the end of the batch it advances
      by the whole batch, and otherwise it rolls back to where it was. No other error can occur: not
      a planning error, a membership or a transition mismatch, nor one of the runner's own. */
  lemma SceneBatchAdvances(cfg: Config, s: System, limit: nat, retry: bool, faults: nat -> Fault)
    requires Invariant(cfg, s) && 1 <= limit <= MAX_LIMIT && s.scene.checkpoint.status.Idle?
    requires forall q :: faults(q) == NoFault
    ensures var run := BatchOf(cfg, s, SceneProjector, limit, retry, faults);
      var target := ProjectionRunner.Min(s.scene.checkpoint.last + limit, |s.log|);
      if Ready(DependenciesOf(s), target)
      then run.result.Ran? && run.projector.checkpoint.last == target
      else run == Run(RunRaised(HandlerAborted), s.scene, s.tables)
  {
    hide UniqueObservations, TablesAt, RunBatch, HandlerOf, EntriesOfLog, Consistent;
    var entries, h := EntriesOfLog(s.log), HandlerOf(cfg, s, SceneProjector);
    var inv := (t: Tables, k: nat) => StandsAt(cfg, s, SceneProjector, t, k);
    var ready := (q: nat) => Ready(DependenciesOf(s), q);
    EntriesAreItems(s.log);
    forall t, k: nat | inv(t, k) && k < |s.log| && k + 1 in entries
      ensures GatedAt(entries, h, inv, ready, t, k)
    {
      SceneSucceeds(cfg, s, t, k);
      if ready(k + 1) {
        HandlerKeeps(cfg, s, SceneProjector, t, k);
      }
    }
    BatchGated(entries, |s.log|, h, faults, limit, retry, s.scene, s.tables, |s.log|, inv, ready);
    ReadyDependencies(cfg, s);
    var target := ProjectionRunner.Min(s.scene.checkpoint.last + limit, |s.log|);
    assert Ready(DependenciesOf(s), target) <==> ReadyThrough(ready, s.scene.checkpoint.last, target) by {
      if ReadyThrough(ready, s.scene.checkpoint.last, target) && target > s.scene.checkpoint.last {
        assert ready(target);
      }
    }
  }

  lemma ReadyDependencies(cfg: Config, s: System)
    requires Invariant(cfg, s)
    ensures Ready(DependenciesOf(s), s.scene.checkpoint.last) && s.scene.checkpoint.last <= |s.log|
  {
    hide UniqueObservations, EntitiesAt, GraphAt, ScenesExact, Bookkeeping;
  }

  /* ----- The correlation handler ----- */

  /** The correlation handler succeeds on an item exactly when the relationship projector is past it,
      the known entries agree on endpoint types and the registry admits what the rules derive; otherwise
      it raises. */
  lemma CorrelationOutcome(cfg: Config, s: System, t: Tables, k: nat)
    requires UniqueObservations(s.log) && StandsAt(cfg, s, CorrelationProjector, t, k) && k < |s.log|
    ensures var result := HandlerOf(cfg, s, CorrelationProjector)(t, ItemAt(s.log, k + 1));
      if k + 1 <= s.relationship.checkpoint.last && TypesConsistent(cfg, s.log, k + 1) && Permitted(cfg, s.log, k + 1)
      then result.Done? else result.Aborted?
  {
    hide Permitted, TypesConsistent, UniqueObservations, GraphExact, ScenesExact, EntitiesAt, Correlation.EvaluateAll,
      Correlation.PersistAll, Derivations, EvidenceLinks;
    if k + 1 <= s.relationship.checkpoint.last {
      StepSucceeds(cfg, s.log, s.relationship.checkpoint.last, k + 1, t.graph, s.relationship.checkpoint.last);
    }
  }

  /** Once the entity projector is past an item, the correlation handler succeeds on it exactly when
      the relationship projector is past it too and its registry admits what the rules derive: neither
      contradictory endpoint types nor a missing or self-referring support can occur. */
  lemma CorrelationSucceeds(cfg: Config, s: System, t: Tables, k: nat)
    requires UniqueObservations(s.log) && StandsAt(cfg, s, CorrelationProjector, t, k) && k < s.entity.checkpoint.last
    ensures var result := HandlerOf(cfg, s, CorrelationProjector)(t, ItemAt(s.log, k + 1));
      if k + 1 <= s.relationship.checkpoint.last && Permitted(cfg, s.log, k + 1) then result.Done? else result.Aborted?
  {
    hide Permitted, UniqueObservations, GraphExact, ScenesExact, CorrelationTheorems.OneType, Entity.EntitiesExact, Entity.ItemClaims, Items,
      Correlation.EvaluateAll, Correlation.PersistAll, Derivations, EvidenceLinks;
    if k + 1 <= s.relationship.checkpoint.last {
      AcceptedIsOneType(t.entities, s.log, s.entity.checkpoint.last, k + 1);
      CorrelationTheorems.OneTypeSucceeds(cfg, s.log, s.relationship.checkpoint.last, k + 1, t.graph, s.relationship.checkpoint.last);
    }
  }

  ghost predicate AllPermitted(cfg: Config, log: seq<Observation>, from: nat, to: nat)
    requires to <= |log|
  {
    forall q | from < q <= to :: Permitted(cfg, log, q)
  }

  lemma CorrelationBatchAdvances(cfg: Config, s: System, limit: nat, retry: bool, faults: nat -> Fault)
    requires Invariant(cfg, s) && 1 <= limit <= MAX_LIMIT && s.correlation.checkpoint.status.Idle?
    requires ProjectionRunner.Min(s.correlation.checkpoint.last + limit, |s.log|) <= s.entity.checkpoint.last
    requires forall q :: faults(q) == NoFault
    ensures var run := BatchOf(cfg, s, CorrelationProjector, limit, retry, faults);
      var target := ProjectionRunner.Min(s.correlation.checkpoint.last + limit, |s.log|);
      if target <= s.relationship.checkpoint.last && AllPermitted(cfg, s.log, s.correlation.checkpoint.last, target)
      then run.result.Ran? && run.projector.checkpoint.last == target
      else run == Run(RunRaised(HandlerAborted), s.correlation, s.tables)
  {
    hide UniqueObservations, TablesAt, RunBatch, HandlerOf, EntriesOfLog, Consistent, Permitted;
    var entries, h := EntriesOfLog(s.log), HandlerOf(cfg, s, CorrelationProjector);
    var inv := (t: Tables, k: nat) => StandsAt(cfg, s, CorrelationProjector, t, k);
    var ready := (q: nat) => q <= s.relationship.checkpoint.last && 1 <= q <= |s.log| && Permitted(cfg, s.log, q);
    var target := ProjectionRunner.Min(s.correlation.checkpoint.last + limit, |s.log|);
    EntriesAreItems(s.log);
    forall t, k: nat | inv(t, k) && k < target && k + 1 in entries
      ensures GatedAt(entries, h, inv, ready, t, k)
    {
      CorrelationSucceeds(cfg, s, t, k);
      if ready(k + 1) {
        HandlerKeeps(cfg, s, CorrelationProjector, t, k);
      }
    }
    BatchGated(entries, |s.log|, h, faults, limit, retry, s.correlation, s.tables, target, inv, ready);
    CorrelationBehind(cfg, s);
    var last := s.correlation.checkpoint.last;
    assert target <= s.relationship.checkpoint.last && AllPermitted(cfg, s.log, last, target) <==> ReadyThrough(ready, last, target) by {
      if ReadyThrough(ready, last, target) {
        forall q | last < q <= target
          ensures Permitted(cfg, s.log, q)
        {
          assert ready(q);
        }
        assert target == last || ready(target);
      }
    }
  }

  lemma CorrelationBehind(cfg: Config, s: System)
    requires Invariant(cfg, s)
    ensures s.correlation.checkpoint.last <= s.relationship.checkpoint.last <= |s.log|
  {
    hide UniqueObservations, EntitiesAt, GraphAt, ScenesExact, Bookkeeping;
  }

  /* ----- The relationship handler ----- */

  /** Once the entity projector is past an item, the relationship handler never raises on it: it is a
      poison item exactly when its edge lacks an object or breaks the ontology. */
  lemma RelationshipSucceeds(cfg: Config, s: System, t: Tables, k: nat)
    requires UniqueObservations(s.log) && StandsAt(cfg, s, RelationshipProjector, t, k) && k < s.entity.checkpoint.last
    ensures var result := HandlerOf(cfg, s, RelationshipProjector)(t, ItemAt(s.log, k + 1));
      var o := s.log[k];
      if o.relationship.None? || (o.obj.Some? && ValidEdge(cfg.ontology, o.relationship.value, o.subject.etype, o.obj.value.etype))
      then result.Done? else result.Poison?
  {
    hide UniqueObservations, TablesExact, LineageTablesExact, EntriesAt, ScenesExact, CorrelationTheorems.OneType,
      Entity.EntitiesExact, Entity.ItemClaims, Items, Derivations, Record, CorrelationExactness.Agrees, CorrelationTheorems.Refs;
    var o := s.log[k];
    if o.relationship.Some? && o.obj.Some? {
      var e := Relationship.ObservedEntry(ItemAt(s.log, k + 1));
      var d := Derivation(e, CorSeq001, {}, {}, {});
      AcceptedIsOneType(t.entities, s.log, s.entity.checkpoint.last, k + 1);
      CorrelationTheorems.RefAt(s.log, k + 1, k + 1, CorrelationTheorems.SourceRef(e));
      CorrelationTheorems.RefAt(s.log, k + 1, k + 1, CorrelationTheorems.TargetRef(e));
      StatedAgrees(cfg, s.log, k, s.correlation.checkpoint.last, d);
      CorrelationExactness.RecordSucceeds(t.graph, EntriesAt(s.log, k, Derivations(s.log, cfg, s.correlation.checkpoint.last)), d);
    }
  }

  lemma StatedAgrees(cfg: Config, log: seq<Observation>, r: nat, c: nat, d: Derivation)
    requires c <= r < |log| && CorrelationTheorems.OneType(log, r + 1)
    requires CorrelationTheorems.SourceRef(d.entry) in CorrelationTheorems.Refs(log, r + 1)
    requires CorrelationTheorems.TargetRef(d.entry) in CorrelationTheorems.Refs(log, r + 1)
    ensures CorrelationExactness.Agrees(EntriesAt(log, r, Derivations(log, cfg, c)), d)
  {
    hide Derivations, Stated, Justified, CorrelationTheorems.OneType, CorrelationTheorems.Refs;
    CorrelationTheorems.OneTypeAgrees(log, cfg, r + 1, d);
    forall e | e in EntriesAt(log, r, Derivations(log, cfg, c))
      ensures e in Known(log, cfg, r)
    {
      if e !in Stated(log, r) {
        var x :| x in Derivations(log, cfg, c) && x.entry == e;
        DerivationsUpTo(log, cfg, r, c, x);
      }
    }
  }

  /* ----- Catching up ----- */

  const NO_FAULTS: nat -> Fault := (q: nat) => NoFault

  // A log no projector has cause to reject: entity references agree, edges obey the ontology, and the
  // registry admits what the rules derive.
  ghost predicate Clean(cfg: Config, log: seq<Observation>) {
    && Entity.Acceptable(Items(log, |log|))
    && (forall o | o in log && o.relationship.Some? ::
          o.obj.Some? && ValidEdge(cfg.ontology, o.relationship.value, o.subject.etype, o.obj.value.etype))
    && AllPermitted(cfg, log, 0, |log|)
  }

  lemma EntitySucceeds(cfg: Config, s: System, t: Tables, k: nat)
    requires StandsAt(cfg, s, EntityProjector, t, k) && k < |s.log| && Clean(cfg, s.log)
    ensures HandlerOf(cfg, s, EntityProjector)(t, ItemAt(s.log, k + 1)).Done?
  {
    hide GraphAt, ScenesExact, Entity.EntitiesExact, Entity.ItemClaims, Entity.Acceptable, Entity.Step, Permitted;
    AcceptablePrefix(s.log, k);
    AcceptablePrefix(s.log, k + 1);
    ItemsPlus(s.log, k);
    Entity.StepSucceeds(t.entities, Items(s.log, k), ItemAt(s.log, k + 1));
  }

  lemma AcceptablePrefix(log: seq<Observation>, k: nat)
    requires k <= |log| && Entity.Acceptable(Items(log, |log|))
    ensures Entity.Acceptable(Items(log, k))
  {
    AcceptableSubset(Items(log, k), Items(log, |log|));
  }

  lemma AcceptableSubset(some: set<Item>, all: set<Item>)
    requires some <= all && Entity.Acceptable(all)
    ensures Entity.Acceptable(some)
  {
    hide Entity.Contradicts, Entity.ClaimsOf;
    forall c | c in Entity.ItemClaims(some)
      ensures c in Entity.ItemClaims(all)
    {
    }
  }

  lemma CleanEdge(cfg: Config, log: seq<Observation>, k: nat)
    requires Clean(cfg, log) && k < |log| && log[k].relationship.Some?
    ensures log[k].obj.Some?
    ensures ValidEdge(cfg.ontology, log[k].relationship.value, log[k].subject.etype, log[k].obj.value.etype)
  {
    hide Permitted;
    assert log[k] in log;
  }

  lemma CleanPermits(cfg: Config, log: seq<Observation>, k: nat)
    requires Clean(cfg, log) && k < |log|
    ensures Permitted(cfg, log, k + 1)
  {
    hide Permitted;
  }

  // Every handler but a gated one succeeds on a clean log, given what it depends on has run ahead.
  lemma CleanSucceeds(cfg: Config, s: System, name: ProjectorName, t: Tables, k: nat)
    requires UniqueObservations(s.log) && Clean(cfg, s.log) && StandsAt(cfg, s, name, t, k) && k < |s.log|
    requires name.EntityProjector? || k < s.entity.checkpoint.last
    requires name.EntityProjector? || name.RelationshipProjector? || k < s.relationship.checkpoint.last
    requires name.SceneProjector? ==> k < s.correlation.checkpoint.last
    ensures HandlerOf(cfg, s, name)(t, ItemAt(s.log, k + 1)).Done?
  {
    hide UniqueObservations, StandsAt, HandlerOf, Clean, Items, Permitted;
    match name
    case EntityProjector => EntitySucceeds(cfg, s, t, k);
    case RelationshipProjector =>
      RelationshipSucceeds(cfg, s, t, k);
      if s.log[k].relationship.Some? {
        CleanEdge(cfg, s.log, k);
      }
    case CorrelationProjector =>
      CorrelationSucceeds(cfg, s, t, k);
      CleanPermits(cfg, s.log, k);
    case SceneProjector => SceneSucceeds(cfg, s, t, k);
  }

  // The named projector is idle, and what it depends on has reached the end of the log.
  predicate ReadyToCatchUp(s: System, name: ProjectorName) {
    && ProjectorOf(s, name).checkpoint.status.Idle?
    && (name.EntityProjector? || s.entity.checkpoint.last == |s.log|)
    && (name.EntityProjector? || name.RelationshipProjector? || s.relationship.checkpoint.last == |s.log|)
    && (name.SceneProjector? ==> s.correlation.checkpoint.last == |s.log|)
  }

  // What running the named projector alone leaves.
  predicate OnlyRan(s: System, s': System, name: ProjectorName) {
    s'.log == s.log && forall other | other != name :: ProjectorOf(s', other) == ProjectorOf(s, other)
  }

  lemma FullBatch(cfg: Config, s: System, name: ProjectorName)
    requires Invariant(cfg, s) && Clean(cfg, s.log) && ReadyToCatchUp(s, name)
    ensures var s' := Apply(cfg, s, RunProjector(name, MAX_LIMIT, false, NO_FAULTS));
      && Invariant(cfg, s') && OnlyRan(s, s', name) && ProjectorOf(s', name).checkpoint.status.Idle?
      && ProjectorOf(s', name).checkpoint.last == ProjectionRunner.Min(ProjectorOf(s, name).checkpoint.last + MAX_LIMIT, |s.log|)
  {
    hide UniqueObservations, TablesAt, RunBatch, HandlerOf, EntriesOfLog, Consistent, Clean, Gated;
    RunKeeps(cfg, s, name, MAX_LIMIT, false, NO_FAULTS);
    var entries, h := EntriesOfLog(s.log), HandlerOf(cfg, s, name);
    var inv := (t: Tables, k: nat) => StandsAt(cfg, s, name, t, k);
    var ready := (q: nat) => true;
    EntriesAreItems(s.log);
    forall t, k: nat | inv(t, k) && k < |s.log| && k + 1 in entries
      ensures GatedAt(entries, h, inv, ready, t, k)
    {
      CleanSucceeds(cfg, s, name, t, k);
      HandlerKeeps(cfg, s, name, t, k);
    }
    assert Gated(entries, |s.log|, h, inv, ready) by {
      MakeGated(entries, |s.log|, h, inv, ready);
    }
    BatchGated(entries, |s.log|, h, NO_FAULTS, MAX_LIMIT, false, ProjectorOf(s, name), s.tables, |s.log|, inv, ready);
  }

  lemma MakeGated<S(!new)>(entries: Entries, bound: nat, h: Handler<S>, inv: (S, nat) -> bool, ready: nat -> bool)
    requires forall t, k: nat | inv(t, k) && k < bound && k + 1 in entries :: GatedAt(entries, h, inv, ready, t, k)
    ensures Gated(entries, bound, h, inv, ready)
  {
  }

  // n full batches of one projector.
  ghost function RunTimes(cfg: Config, s: System, name: ProjectorName, n: nat): System
    decreases n
  {
    if n == 0 then s else RunTimes(cfg, Apply(cfg, s, RunProjector(name, MAX_LIMIT, false, NO_FAULTS)), name, n - 1)
  }

  lemma {:induction false} CatchUpOne(cfg: Config, s: System, name: ProjectorName, n: nat)
    requires Invariant(cfg, s) && Clean(cfg, s.log) && ReadyToCatchUp(s, name)
    requires |s.log| <= ProjectorOf(s, name).checkpoint.last + n * MAX_LIMIT
    ensures var s' := RunTimes(cfg, s, name, n);
      Invariant(cfg, s') && OnlyRan(s, s', name) && ProjectorOf(s', name).checkpoint.last == |s.log|
    decreases n
  {
    hide Clean, Apply, Consistent, TablesAt, UniqueObservations, EntriesOfLog;
    LastWithin(EntriesOfLog(s.log), |s.log|, ProjectorOf(s, name));
    if n > 0 {
      var next := Apply(cfg, s, RunProjector(name, MAX_LIMIT, false, NO_FAULTS));
      FullBatch(cfg, s, name);
      OthersUntouched(s, next, name);
      assert (n - 1) * MAX_LIMIT >= 0 && n * MAX_LIMIT == (n - 1) * MAX_LIMIT + MAX_LIMIT;
      CatchUpOne(cfg, next, name, n - 1);
      OthersUntouched(next, RunTimes(cfg, next, name, n - 1), name);
    }
  }

  /** From any reachable state of a clean log with no projector paused or failed, running each projector
      in dependency order brings all four to the end of the log: nothing a run can do leaves the tables
      in a state the handlers then refuse. */
  lemma CatchUp(cfg: Config, s: System, n: nat)
    requires Invariant(cfg, s) && Clean(cfg, s.log) && |s.log| <= n * MAX_LIMIT
    requires forall name :: ProjectorOf(s, name).checkpoint.status.Idle?
    ensures var s1 := RunTimes(cfg, s, EntityProjector, n);
      var s2 := RunTimes(cfg, s1, RelationshipProjector, n);
      var s3 := RunTimes(cfg, s2, CorrelationProjector, n);
      var s4 := RunTimes(cfg, s3, SceneProjector, n);
      Invariant(cfg, s4) && s4.log == s.log && forall name :: ProjectorOf(s4, name).checkpoint.last == |s.log|
  {
    hide Invariant, Clean, RunTimes;
    var s1 := RunTimes(cfg, s, EntityProjector, n);
    var s2 := RunTimes(cfg, s1, RelationshipProjector, n);
    var s3 := RunTimes(cfg, s2, CorrelationProjector, n);
    CatchUpOne(cfg, s, EntityProjector, n);
    OthersUntouched(s, s1, EntityProjector);
    CatchUpOne(cfg, s1, RelationshipProjector, n);
    OthersUntouched(s1, s2, RelationshipProjector);
    CatchUpOne(cfg, s2, CorrelationProjector, n);
    OthersUntouched(s2, s3, CorrelationProjector);
    CatchUpOne(cfg, s3, SceneProjector, n);
    OthersUntouched(s3, RunTimes(cfg, s3, SceneProjector, n), SceneProjector);
  }

  lemma OthersUntouched(s: System, s': System, name: ProjectorName)
    requires OnlyRan(s, s', name)
    ensures !name.EntityProjector? ==> s'.entity == s.entity
    ensures !name.RelationshipProjector? ==> s'.relationship == s.relationship
    ensures !name.CorrelationProjector? ==> s'.correlation == s.correlation
    ensures !name.SceneProjector? ==> s'.scene == s.scene
  {
    assert ProjectorOf(s', EntityProjector) == s'.entity && ProjectorOf(s', RelationshipProjector) == s'.relationship;
    assert ProjectorOf(s', CorrelationProjector) == s'.correlation && ProjectorOf(s', SceneProjector) == s'.scene;
  }
}
