/** What anyone reading the tables finds after any run, in terms of the log and the rows. */
module Readings {
  import opened Domain
  import opened Spans
  import opened RelationshipGraph
  import opened CorrelationRules
  import opened CorrelationHistory
  import opened CorrelationExactness
  import opened ProjectionRunner
  import opened AttackScenePlanner
  import opened AttackSceneFacts
  import opened AttackSceneProjection
  import opened GraphInvariants
  import opened Pipeline
  import opened PipelineSteps
  import opened PipelineTheorems
  import opened PipelineProgress
  import opened Guarantees
  import opened CorrelationStall
  import opened DerivedRows
  import SceneContents
  import Correlation = CorrelationProjection
  import Relationship = RelationshipProjection
  import Entity = EntityProjection

  /* ----- Entities ----- */

  /** The entity rows after any run show the log up to the entity checkpoint: a row for each entity it refers
      to, with the label and attributes of the reference with the greatest event time and, among these, the
      greatest ingest sequence, and with true bounds. */
  lemma {:induction false} EntitiesRead(cfg: Config, steps: seq<Step>, key: Entity.EntityKey)
    ensures var s := After(cfg, steps);
      s.entity.checkpoint.last <= |s.log| &&
      var m, items := s.tables.entities, Items(s.log, s.entity.checkpoint.last);
      && (key in m <==> exists it, ref :: it in items && Entity.Refers(it, key, ref))
      && (key in m ==>
            && (exists it, ref :: it in items && Entity.Refers(it, key, ref) && Entity.Shown(m[key], it, ref))
            && (forall it, ref | it in items && Entity.Refers(it, key, ref) :: Entity.Bounded(m[key], it, ref)))
  {
    hide After, Bookkeeping, UniqueObservations, GraphAt, ScenesExact, Items, Entity.EntitiesExact, Entity.ItemClaims, Entity.Refers;
    ReachableInvariant(cfg, steps);
    var s := After(cfg, steps);
    Entity.RowsRead(s.tables.entities, Items(s.log, s.entity.checkpoint.last), key);
  }

  /* ----- Observed relationships ----- */

  lemma ObservedEntriesAt(log: seq<Observation>, cfg: Config, r: nat, c: nat, rid: RelationshipId)
    requires c <= r <= |log| && rid.provenance == Observed
    ensures EntriesOf(EntriesAt(log, r, Derivations(log, cfg, c)), rid) == EntriesOf(Relationship.ObservedEntries(Items(log, r)), rid)
  {
    hide Derivations, Stated, Shaped, Justified;
    forall d | d in Derivations(log, cfg, c)
      ensures d.entry.rid.provenance == Deterministic
    {
      DerivationShape(log, cfg, c, d);
      DerivedIsDeterministic(cfg, log, d);
    }
    assert Stated(log, r) == Relationship.ObservedEntries(Items(log, r)) by { StatedIs(log, r); }
    forall e: Entry
      ensures e in EntriesOf(EntriesAt(log, r, Derivations(log, cfg, c)), rid) <==> e in EntriesOf(Stated(log, r), rid)
    {
    }
  }

  lemma StatedIs(log: seq<Observation>, r: nat)
    requires r <= |log|
    ensures Stated(log, r) == Relationship.ObservedEntries(Items(log, r))
  {
  }

  lemma DerivedIsDeterministic(cfg: Config, log: seq<Observation>, d: Derivation)
    requires Shaped(cfg.ruleOntology, log, d)
    ensures d.entry.rid.provenance == Deterministic
  {
  }

  /** The observed relationship rows, their lineage and their evidence after any run show the statements of the
      log up to the relationship checkpoint. */
  lemma {:induction false} ObservedRelationshipsRead(cfg: Config, steps: seq<Step>, rid: RelationshipId, obsId: string, x: string)
    requires rid.provenance == Observed
    ensures var s := After(cfg, steps);
      s.relationship.checkpoint.last <= |s.log| &&
      var g, items := s.tables.graph, Items(s.log, s.relationship.checkpoint.last);
      && (rid in g.relationships <==> exists it :: it in items && Relationship.States(it, rid))
      && (rid in g.relationships ==>
            && (forall it | it in items && Relationship.States(it, rid) :: Relationship.Within(g.relationships[rid], it))
            && (exists it :: it in items && Relationship.States(it, rid) && it.obs.confidence == g.relationships[rid].confidence))
      && (LineageKey(rid, obsId) in g.lineage <==>
            exists it :: it in items && Relationship.States(it, rid) && it.obs.id == obsId)
      && (EvidenceKey(rid, x) in g.evidence <==>
            exists it, e :: it in items && Relationship.States(it, rid) && e in it.obs.evidence && e.id == x)
  {
    hide After, Bookkeeping, UniqueObservations, TablesExact, ScenesExact, Items, EntitiesAt, LineageTablesExact, Derivations,
      EntriesAt, Relationship.States, Relationship.ObservedEntries;
    ReachableInvariant(cfg, steps);
    var s := After(cfg, steps);
    var r, c := s.relationship.checkpoint.last, s.correlation.checkpoint.last;
    ObservedEntriesAt(s.log, cfg, r, c, rid);
    Relationship.RowsRead(s.tables.graph, EntriesAt(s.log, r, Derivations(s.log, cfg, c)), Items(s.log, r), rid);
    Relationship.LineageRead(s.tables.graph, EntriesAt(s.log, r, Derivations(s.log, cfg, c)), Items(s.log, r), LineageKey(rid, obsId), x);
  }

  /* ----- Derived relationships ----- */

  ghost predicate DerivableThrough(cfg: Config, log: seq<Observation>, c: nat)
    requires c <= |log|
  {
    forall n | 1 <= n <= c :: Derivable(cfg, log, n)
  }

  lemma {:induction false} PassedIsDerivable(cfg: Config, steps: seq<Step>)
    ensures After(cfg, steps).correlation.checkpoint.last <= |After(cfg, steps).log|
    ensures DerivableThrough(cfg, After(cfg, steps).log, After(cfg, steps).correlation.checkpoint.last)
  {
    hide Derivable, Invariant, Pipeline.Apply;
    if steps == [] {
      AfterNothing(cfg);
    } else {
      var init := steps[..|steps| - 1];
      PassedIsDerivable(cfg, init);
      ReachableInvariant(cfg, init);
      ReachableInvariant(cfg, steps);
      PassedStep(cfg, After(cfg, init), steps[|steps| - 1]);
    }
  }

  lemma PassedStep(cfg: Config, s: System, step: Step)
    requires Invariant(cfg, s) && s.correlation.checkpoint.last <= |s.log|
    requires DerivableThrough(cfg, s.log, s.correlation.checkpoint.last)
    ensures var s' := Pipeline.Apply(cfg, s, step);
      s'.correlation.checkpoint.last <= |s'.log| && DerivableThrough(cfg, s'.log, s'.correlation.checkpoint.last)
  {
    hide Derivable, UniqueObservations, TablesAt, Consistent, EntriesOfLog, BatchOf;
    match step
    case Ingest(o) => ThroughAppend(cfg, s.log, Pipeline.Apply(cfg, s, step).log, s.correlation.checkpoint.last);
    case RunProjector(name, limit, retry, faults) =>
      if name.CorrelationProjector? {
        PassedBatch(cfg, s, limit, retry, faults);
      }
    case _ =>
  }

  lemma ThroughAppend(cfg: Config, log: seq<Observation>, log': seq<Observation>, c: nat)
    requires c <= |log| && log <= log' && DerivableThrough(cfg, log, c)
    ensures DerivableThrough(cfg, log', c)
  {
    hide Derivable;
    forall n | 1 <= n <= c
      ensures Derivable(cfg, log', n)
    {
      DerivablePrefix(cfg, log, log', n);
    }
  }

  lemma PassedBatch(cfg: Config, s: System, limit: int, retry: bool, faults: nat -> Fault)
    requires Invariant(cfg, s) && s.correlation.checkpoint.last <= |s.log|
    requires DerivableThrough(cfg, s.log, s.correlation.checkpoint.last)
    ensures var run := BatchOf(cfg, s, CorrelationProjector, limit, retry, faults);
      run.projector.checkpoint.last <= |s.log| && DerivableThrough(cfg, s.log, run.projector.checkpoint.last)
  {
    hide UniqueObservations, TablesAt, RunBatch, HandlerOf, EntriesOfLog, Consistent, Derivable;
    var entries, h := EntriesOfLog(s.log), HandlerOf(cfg, s, CorrelationProjector);
    EntriesAreItems(s.log);
    var inv := (t: Tables, k: nat) => StandsAt(cfg, s, CorrelationProjector, t, k) && k <= |s.log| && DerivableThrough(cfg, s.log, k);
    forall t, k: nat | inv(t, k) && k < |s.log| && k + 1 in entries && h(t, Item(k + 1, entries[k + 1])).Done?
      ensures inv(h(t, Item(k + 1, entries[k + 1])).state, k + 1)
    {
      HandlerKeeps(cfg, s, CorrelationProjector, t, k);
      PassedItem(cfg, s, t, k);
    }
    BatchPreserves(entries, |s.log|, h, faults, limit, retry, s.correlation, s.tables, inv);
  }

  lemma PassedItem(cfg: Config, s: System, t: Tables, k: nat)
    requires UniqueObservations(s.log) && StandsAt(cfg, s, CorrelationProjector, t, k) && k < |s.log|
    requires HandlerOf(cfg, s, CorrelationProjector)(t, ItemAt(s.log, k + 1)).Done? && DerivableThrough(cfg, s.log, k)
    ensures DerivableThrough(cfg, s.log, k + 1)
  {
    hide UniqueObservations, StandsAt, HandlerOf, TypesConsistent, Permitted;
    CorrelationOutcome(cfg, s, t, k);
    assert Derivable(cfg, s.log, k + 1);
    hide Derivable;
  }

  // COR-SEQ-001, under every ruleset: an exploit attempt on an entity with an earlier stated vulnerability.
  ghost predicate Exploits(cfg: Config, g: Graph, o: Observation, n: nat) {
    && o.activity == "exploit_attempt" && o.obj.Some?
    && (exists j :: BuildsOn(g, o, n, CorSeq001, j))
    && Exploited in cfg.ruleOntology.sources && o.subject.etype in cfg.ruleOntology.sources[Exploited]
    && Exploited in cfg.ruleOntology.targets && o.obj.value.etype in cfg.ruleOntology.targets[Exploited]
  }

  // COR-SEQ-002, under rulesets 2 and 3: a suspicious child process on an entity that its attack source
  // exploited earlier.
  ghost predicate Compromises(cfg: Config, g: Graph, o: Observation, n: nat) {
    && (cfg.ruleset == RulesetV2 || cfg.ruleset == RulesetV3)
    && o.eventClass == ProcessActivity && o.suspiciousChild && o.attackSource.Some? && o.obj.Some?
    && (exists j :: BuildsOn(g, o, n, CorSeq002, j)
          && Compromised in cfg.ruleOntology.sources
          && g.relationships[j.rid].sourceType in cfg.ruleOntology.sources[Compromised])
    && Compromised in cfg.ruleOntology.targets && o.obj.value.etype in cfg.ruleOntology.targets[Compromised]
  }

  // COR-SEQ-003, under ruleset 3: an authentication from an entity compromised earlier.
  ghost predicate MovesLaterally(cfg: Config, g: Graph, o: Observation, n: nat) {
    && cfg.ruleset == RulesetV3
    && o.eventClass == Authentication && o.obj.Some?
    && (exists j :: BuildsOn(g, o, n, CorSeq003, j))
    && MovedLaterallyTo in cfg.ruleOntology.sources && o.subject.etype in cfg.ruleOntology.sources[MovedLaterallyTo]
    && MovedLaterallyTo in cfg.ruleOntology.targets && o.obj.value.etype in cfg.ruleOntology.targets[MovedLaterallyTo]
  }

  // For the n-th observation each rule has written a row exactly when its conditions hold, with its content.
  ghost predicate RulesWritten(cfg: Config, g: Graph, log: seq<Observation>, n: nat)
    requires 1 <= n <= |log|
  {
    var o := log[n - 1];
    && ((exists k :: RowFor(g, log, n, CorSeq001, k)) <==> Exploits(cfg, g, o, n))
    && ((exists k :: RowFor(g, log, n, CorSeq002, k)) <==> Compromises(cfg, g, o, n))
    && ((exists k :: RowFor(g, log, n, CorSeq003, k)) <==> MovesLaterally(cfg, g, o, n))
    && (forall rule, k | RowFor(g, log, n, rule, k) ::
          Recorded(g, o, n, rule, k) && RecordedSupports(g, o, n, rule, k) && RecordedEvidence(g, log, o, n, rule, k))
  }

  lemma WrittenRows(g: Graph, log: seq<Observation>, cfg: Config, r: nat, c: nat, n: nat)
    requires 1 <= n <= c <= r <= |log| && UniqueObservations(log) && GraphAt(g, log, cfg, r, c) && TypesConsistent(cfg, log, n)
    ensures RulesWritten(cfg, g, log, n)
  {
    hide UniqueObservations, GraphAt, TypesConsistent, RowFor, Recorded, RecordedSupports, RecordedEvidence, BuildsOn;
    ExploitRow(g, log, cfg, r, c, n);
    CompromiseRow(g, log, cfg, r, c, n);
    LateralMoveRow(g, log, cfg, r, c, n);
    forall rule, k | RowFor(g, log, n, rule, k)
      ensures Recorded(g, log[n - 1], n, rule, k) && RecordedSupports(g, log[n - 1], n, rule, k)
      ensures RecordedEvidence(g, log, log[n - 1], n, rule, k)
    {
      RowRecorded(g, log, cfg, r, c, n, rule, k);
      SupportsAndEvidence(g, log, cfg, r, c, n, rule, k);
    }
  }

  lemma GateOpen(cfg: Config, log: seq<Observation>, r: nat, n: nat, g: Graph)
    requires 1 <= n <= r <= |log|
    ensures ItemAt(log, n).seqNo == n && ItemAt(log, n - 1 + 1) == ItemAt(log, n)
  {
  }

  /** On the tables right after a handled item, each rule has written a row for it exactly when its conditions
      hold there. */
  lemma HandledItemRead(cfg: Config, log: seq<Observation>, r: nat, n: nat, g: Graph)
    requires 1 <= n <= r <= |log| && UniqueObservations(log) && GraphAt(g, log, cfg, r, n - 1)
    requires Correlation.Step(cfg, g, EvidenceLinks(log), r, ItemAt(log, n)).Done?
    ensures RulesWritten(cfg, Correlation.Step(cfg, g, EvidenceLinks(log), r, ItemAt(log, n)).state, log, n)
  {
    hide UniqueObservations, GraphExact, TypesConsistent, Permitted, Correlation.Step, RulesWritten, Derivations, EvidenceLinks;
    GateOpen(cfg, log, r, n, g);
    StepSucceeds(cfg, log, r, n, g, r);
    CorrelationItem(cfg, log, g, r, n - 1);
    WrittenRows(Correlation.Step(cfg, g, EvidenceLinks(log), r, ItemAt(log, n)).state, log, cfg, r, n, n);
  }

  /** And so on the tables after any run, for every observation the correlation projector has passed, however
      far the other projectors have run and whatever was recorded for other observations. */
  lemma {:induction false} DerivedRowsRead(cfg: Config, steps: seq<Step>, n: nat)
    requires 1 <= n <= After(cfg, steps).correlation.checkpoint.last <= |After(cfg, steps).log|
    ensures RulesWritten(cfg, After(cfg, steps).tables.graph, After(cfg, steps).log, n)
  {
    hide After, Bookkeeping, UniqueObservations, EntitiesAt, GraphAt, ScenesExact, TypesConsistent, Permitted, RulesWritten;
    ReachableInvariant(cfg, steps);
    PassedIsDerivable(cfg, steps);
    var s := After(cfg, steps);
    assert Derivable(cfg, s.log, n);
    WrittenRows(s.tables.graph, s.log, cfg, s.relationship.checkpoint.last, s.correlation.checkpoint.last, n);
  }

  /* ----- Scenes ----- */

  /** The stored scenes after any run are those of the relationships some row up to the scene checkpoint
      derives by COR-SEQ-001, and a scene lists exactly the root and what is derived from it, and the
      relationships that support the root's derivations. */
  lemma {:induction false} SceneMembersRead(cfg: Config, steps: seq<Step>, root: RelationshipId, rid: RelationshipId)
    ensures var s := After(cfg, steps);
      var g, b, scenes := s.tables.graph, s.scene.checkpoint.last, s.tables.scenes;
      && (root in scenes <==> exists k :: SceneContents.ExploitRow(g, root, b, k))
      && (root in scenes ==>
            (rid in scenes[root].relationships <==>
               || rid == root
               || (forall m: set<RelationshipId> | SceneContents.Complete(g, root, b, m) :: rid in m)
               || SceneContents.SupportsRoot(g, root, b, rid)))
  {
    hide After, Bookkeeping, UniqueObservations, EntitiesAt, GraphAt, IsRoot, IsPlan, WellFormed, SceneContents.ExploitRow,
      SceneContents.Complete, SceneContents.SupportsRoot;
    ReachableInvariant(cfg, steps);
    var s := After(cfg, steps);
    var g, b := s.tables.graph, s.scene.checkpoint.last;
    ExactWellFormed(g, s.log, cfg, s.relationship.checkpoint.last, s.correlation.checkpoint.last);
    SceneContents.RootsRead(g, root, b);
    if root in s.tables.scenes {
      var p :| IsPlan(g, root, b, p) && Shows(s.tables.scenes[root], p);
      SceneContents.MembersRead(g, root, b, p, rid);
    }
  }

  /** In particular a stored scene lists every support of every derivation of its root that the log gives up
      to the scene checkpoint. */
  lemma {:induction false} SceneListsSupports(cfg: Config, steps: seq<Step>, root: RelationshipId, d: Derivation)
    requires root in After(cfg, steps).tables.scenes && After(cfg, steps).scene.checkpoint.last <= |After(cfg, steps).log|
    requires d in Derivations(After(cfg, steps).log, cfg, After(cfg, steps).scene.checkpoint.last) && d.entry.rid == root
    ensures d.supports <= After(cfg, steps).tables.scenes[root].relationships.Keys
  {
    hide After, Bookkeeping, EntitiesAt, IsRoot, IsPlan, WellFormed, Derivations, TablesExact, SceneContents.Complete, Shaped,
      Justified, UniqueObservations, LineageTablesExact, Shows, GraphAt;
    ReachableInvariant(cfg, steps);
    var s := After(cfg, steps);
    var g, r, c, b := s.tables.graph, s.relationship.checkpoint.last, s.correlation.checkpoint.last, s.scene.checkpoint.last;
    ExactWellFormed(g, s.log, cfg, r, c);
    DerivationRowsUpTo(g, s.log, cfg, r, c, b, KeyOf(d.entry));
    DerivationShape(s.log, cfg, b, d);
    SceneMembersRead(cfg, steps, root, root);
    var k :| SceneContents.ExploitRow(g, root, b, k);
    RootRule(g, root, b, k, cfg, s.log, d);
    forall sup | sup in d.supports
      ensures sup in s.tables.scenes[root].relationships
    {
      assert SupportRow(KeyOf(d.entry), sup) in g.supports;
      assert SceneContents.SupportsRoot(g, root, b, sup);
      SceneMembersRead(cfg, steps, root, sup);
    }
  }

  lemma RootRule(g: Graph, root: RelationshipId, b: nat, k: LineageKey, cfg: Config, log: seq<Observation>, d: Derivation)
    requires WellFormed(g) && SceneContents.ExploitRow(g, root, b, k) && Shaped(cfg.ruleOntology, log, d) && d.entry.rid == root
    ensures d.rule == CorSeq001
  {
    hide LineageWellFormed, SupportsWellFormed, PositionsWellFormed;
  }

  /** What else a stored scene holds: the observations, entities and spans of the lineage of what it lists; and
      as transition rows exactly potential to observed at the root's first exploit trigger and, if the root
      supports a compromise, observed to confirmed at the first such trigger. */
  lemma {:induction false} SceneContentsRead(cfg: Config, steps: seq<Step>, root: RelationshipId)
    requires root in After(cfg, steps).tables.scenes
    ensures exists p :: StoredAs(After(cfg, steps).tables.graph, After(cfg, steps).scene.checkpoint.last,
                                 After(cfg, steps).tables.scenes[root], root, p)
  {
    hide After, Bookkeeping, UniqueObservations, EntitiesAt, GraphAt, IsRoot, IsPlan, WellFormed;
    ReachableInvariant(cfg, steps);
    var s := After(cfg, steps);
    var g, b := s.tables.graph, s.scene.checkpoint.last;
    ExactWellFormed(g, s.log, cfg, s.relationship.checkpoint.last, s.correlation.checkpoint.last);
    var p :| IsPlan(g, root, b, p) && Shows(s.tables.scenes[root], p);
    ShownIsStored(g, root, b, p, s.tables.scenes[root]);
  }

  // The scene's rows are the plan's parts, which match the graph's lineage, and its transition rows and state
  // are as the triggers say.
  ghost predicate StoredAs(g: Graph, b: nat, scene: StoredScene, root: RelationshipId, p: Plan) {
    && scene.relationships == p.relationships && scene.observations == p.observations
    && scene.entities == p.entities && scene.span == p.span
    && SceneContents.ObservationsMatch(g, b, p) && SceneContents.SpansAttained(g, b, p) && SceneContents.EntitiesMatch(g, b, p)
    && TransitionsStored(g, b, scene, root)
  }

  ghost predicate IsRowOf(key: TransitionKey, row: TransitionRow, t: Transition) {
    key.seqNo == t.seqNo && key.obsId == t.obsId && row.from == t.from && row.to == t.to && row.reason == t.reason
  }

  ghost predicate HasRowOf(scene: StoredScene, t: Transition) {
    exists key :: key in scene.transitions && IsRowOf(key, scene.transitions[key], t)
  }

  ghost predicate ExploitAt(g: Graph, root: RelationshipId, b: nat, t: Transition) {
    exists k :: SceneContents.ExploitTransition(g, root, b, k, t)
  }

  ghost predicate CompromiseAt(g: Graph, root: RelationshipId, b: nat, t: Transition) {
    exists k :: SceneContents.CompromiseTransition(g, root, b, k, t)
  }

  ghost predicate TransitionsStored(g: Graph, b: nat, scene: StoredScene, root: RelationshipId) {
    var compromised := exists k :: SceneContents.CompromiseRow(g, root, b, k);
    && (forall key | key in scene.transitions ::
          exists t :: (ExploitAt(g, root, b, t) || CompromiseAt(g, root, b, t)) && IsRowOf(key, scene.transitions[key], t))
    && (exists t :: ExploitAt(g, root, b, t) && HasRowOf(scene, t))
    && (compromised ==> exists t :: CompromiseAt(g, root, b, t) && HasRowOf(scene, t))
    && (scene.state == (if compromised then ConfirmedState else ObservedState)
        || scene.state == ContainedState || scene.state == ClosedState)
  }

  lemma ShownIsStored(g: Graph, root: RelationshipId, b: nat, p: Plan, scene: StoredScene)
    requires WellFormed(g) && IsRoot(g, root, b) && IsPlan(g, root, b, p) && Shows(scene, p)
    ensures StoredAs(g, b, scene, root, p)
  {
    hide WellFormed, IsRoot, SceneContents.ObservationsMatch, SceneContents.SpansAttained, SceneContents.EntitiesMatch,
      TransitionsStored, SceneRelationships, SceneObservations, SceneEntities, TransitionsExact, Covers, Members, TransitionRows;
    SceneContents.ContentsRead(g, root, b, p);
    TransitionsShown(g, root, b, p, scene);
  }

  lemma TransitionsShown(g: Graph, root: RelationshipId, b: nat, p: Plan, scene: StoredScene)
    requires WellFormed(g) && IsRoot(g, root, b) && IsPlan(g, root, b, p) && Shows(scene, p)
    ensures TransitionsStored(g, b, scene, root)
  {
    hide WellFormed, IsRoot, SceneContents.ExploitTransition, SceneContents.CompromiseTransition, SceneContents.CompromiseRow,
      TransitionRows, SceneRelationships, SceneObservations, SceneEntities, TransitionsExact, Covers, Members, DistinctKeys, IsRowOf,
      HasRowOf;
    SceneContents.TransitionsRead(g, root, b, p);
    PlannedTransitions(g, root, b, p);
    TransitionKeysRead(scene, p.transitions);
    var ts := p.transitions;
    assert ExploitAt(g, root, b, ts[0]) && HasRowOf(scene, ts[0]);
    if |ts| == 2 {
      assert CompromiseAt(g, root, b, ts[1]) && HasRowOf(scene, ts[1]);
    }
    hide ExploitAt, CompromiseAt;
    forall key | key in scene.transitions
      ensures exists t :: (ExploitAt(g, root, b, t) || CompromiseAt(g, root, b, t)) && IsRowOf(key, scene.transitions[key], t)
    {
      var i :| 0 <= i < |ts| && IsRowOf(key, scene.transitions[key], ts[i]);
    }
  }

  lemma TransitionKeysRead(scene: StoredScene, ts: seq<Transition>)
    requires DistinctKeys(ts) && scene.transitions == TransitionRows(ts)
    ensures forall key | key in scene.transitions :: exists i :: 0 <= i < |ts| && IsRowOf(key, scene.transitions[key], ts[i])
    ensures forall i | 0 <= i < |ts| :: HasRowOf(scene, ts[i])
  {
    DistinctWrites(ts);
    hide TransitionRows, DistinctKeys;
    forall key | key in scene.transitions
      ensures exists i :: 0 <= i < |ts| && IsRowOf(key, scene.transitions[key], ts[i])
    {
      var t :| t in ts && KeyOfTransition(t) == key;
      var i :| 0 <= i < |ts| && ts[i] == t;
    }
    forall i | 0 <= i < |ts|
      ensures HasRowOf(scene, ts[i])
    {
      assert ts[i] in ts;
      assert IsRowOf(KeyOfTransition(ts[i]), scene.transitions[KeyOfTransition(ts[i])], ts[i]);
    }
  }
}
