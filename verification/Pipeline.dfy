/** The whole system: one ingest log, four projectors over shared tables, and runner batches that
    interleave in any order. */
module Pipeline {
  import opened Domain
  import opened RelationshipGraph
  import opened CorrelationRules
  import opened CorrelationHistory
  import opened ProjectionRunner
  import opened AttackScenePlanner
  import opened AttackSceneProjection
  import opened GraphInvariants
  import Correlation = CorrelationProjection
  import Relationship = RelationshipProjection
  import Entity = EntityProjection

  datatype Tables = Tables(entities: Entity.Entities, graph: Graph, scenes: Scenes)

  datatype System = System(
    log: seq<Observation>,
    tables: Tables,
    entity: Projector,
    relationship: Projector,
    correlation: Projector,
    scene: Projector
  )

  const START := System([], Tables(map[], EMPTY_GRAPH, map[]), REGISTERED, REGISTERED, REGISTERED, REGISTERED)

  datatype ProjectorName = EntityProjector | RelationshipProjector | CorrelationProjector | SceneProjector

  // What can happen: an ingest, a batch of one projector, operator commands.
  datatype Step =
    | Ingest(o: Observation)
    | RunProjector(name: ProjectorName, limit: int, retry: bool, faults: nat -> Fault)
    | PauseProjector(name: ProjectorName)
    | ResumeProjector(name: ProjectorName)
    | SetSceneState(root: RelationshipId, state: IncidentState)

  function EntriesOfLog(log: seq<Observation>): Entries {
    map k: nat | 1 <= k <= |log| :: ItemAt(log, k).obs
  }

  /* ----- The four handlers on the shared tables ----- */

  function EntityStep(t: Tables, item: Item): Attempt<Tables> {
    match Entity.Step(t.entities, item)
    case Done(m) => Done(t.(entities := m))
    case Poison(code) => Poison(code)
    case Aborted => Aborted
  }

  function RelationshipStep(cfg: Config, t: Tables, item: Item): Attempt<Tables> {
    match Relationship.Step(cfg.ontology, t.graph, item)
    case Done(g) => Done(t.(graph := g))
    case Poison(code) => Poison(code)
    case Aborted => Aborted
  }

  ghost function CorrelationStep(cfg: Config, log: seq<Observation>, checkpoint: nat, t: Tables, item: Item): Attempt<Tables> {
    match Correlation.Step(cfg, t.graph, EvidenceLinks(log), checkpoint, item)
    case Done(g) => Done(t.(graph := g))
    case Poison(code) => Poison(code)
    case Aborted => Aborted
  }

  ghost function SceneStep(deps: Dependencies, t: Tables, item: Item): Attempt<Tables> {
    match AttackSceneProjection.Step(t.graph, t.entities, deps, t.scenes, item)
    case Done(m) => Done(t.(scenes := m))
    case Poison(code) => Poison(code)
    case Aborted => Aborted
  }

  ghost function DependenciesOf(s: System): Dependencies {
    Dependencies(s.entity.checkpoint.last, s.relationship.checkpoint.last, s.correlation.checkpoint.last)
  }

  ghost function HandlerOf(cfg: Config, s: System, name: ProjectorName): Handler<Tables> {
    match name
    case EntityProjector => (t: Tables, item: Item) => EntityStep(t, item)
    case RelationshipProjector => (t: Tables, item: Item) => RelationshipStep(cfg, t, item)
    case CorrelationProjector =>
      (t: Tables, item: Item) => CorrelationStep(cfg, s.log, s.relationship.checkpoint.last, t, item)
    case SceneProjector => (t: Tables, item: Item) => SceneStep(DependenciesOf(s), t, item)
  }

  function ProjectorOf(s: System, name: ProjectorName): Projector {
    match name
    case EntityProjector => s.entity
    case RelationshipProjector => s.relationship
    case CorrelationProjector => s.correlation
    case SceneProjector => s.scene
  }

  function WithProjector(s: System, name: ProjectorName, p: Projector, t: Tables): System {
    match name
    case EntityProjector => s.(entity := p, tables := t)
    case RelationshipProjector => s.(relationship := p, tables := t)
    case CorrelationProjector => s.(correlation := p, tables := t)
    case SceneProjector => s.(scene := p, tables := t)
  }

  predicate AlreadyStored(log: seq<Observation>, o: Observation) {
    exists i :: 0 <= i < |log| && log[i].tenant == o.tenant && log[i].id == o.id
  }

  // An operator moves a stored scene forward to contained or closed.
  function OperatorState(scenes: Scenes, root: RelationshipId, state: IncidentState): Scenes {
    if root in scenes && (state == ContainedState || state == ClosedState)
       && StateOrder(state) > StateOrder(scenes[root].state)
    then scenes[root := scenes[root].(state := state)] else scenes
  }

  ghost function BatchOf(cfg: Config, s: System, name: ProjectorName, limit: int, retry: bool, faults: nat -> Fault): Run<Tables> {
    RunBatch(EntriesOfLog(s.log), |s.log|, HandlerOf(cfg, s, name), faults, limit, retry, ProjectorOf(s, name), s.tables)
  }

  ghost function Apply(cfg: Config, s: System, step: Step): System {
    match step
    case Ingest(o) => if AlreadyStored(s.log, o) then s else s.(log := s.log + [o])
    case RunProjector(name, limit, retry, faults) =>
      var run := BatchOf(cfg, s, name, limit, retry, faults);
      WithProjector(s, name, run.projector, run.state)
    case PauseProjector(name) => WithProjector(s, name, PauseRows(ProjectorOf(s, name)).1, s.tables)
    case ResumeProjector(name) => WithProjector(s, name, ResumeRows(ProjectorOf(s, name)).1, s.tables)
    case SetSceneState(root, state) =>
      s.(tables := s.tables.(scenes := OperatorState(s.tables.scenes, root, state)))
  }

  ghost function After(cfg: Config, steps: seq<Step>): System {
    if steps == [] then START else Apply(cfg, After(cfg, steps[..|steps| - 1]), steps[|steps| - 1])
  }

  /* ----- The invariant ----- */

  // The transition rows a plan's transitions leave in an empty table.
  function TransitionRows(ts: seq<Transition>): map<TransitionKey, TransitionRow> {
    var w := WriteTransitions(map[], ts);
    if w.Some? then w.value else map[]
  }

  // The stored scene shows the plan; an operator may have contained or closed it.
  ghost predicate Shows(s: StoredScene, p: Plan) {
    && s.span == p.span
    && s.relationships == p.relationships
    && s.entities == p.entities
    && s.observations == p.observations
    && s.transitions == TransitionRows(p.transitions)
    && (s.state == p.state || s.state == ContainedState || s.state == ClosedState)
  }

  // Each root with a scene at b is stored as its plan at b, and nothing else is stored.
  ghost predicate ScenesExact(g: Graph, scenes: Scenes, b: nat) {
    && (forall root :: root in scenes <==> IsRoot(g, root, b))
    && (forall root | root in scenes :: exists p :: IsPlan(g, root, b, p) && Shows(scenes[root], p))
  }

  ghost predicate EntitiesAt(m: Entity.Entities, log: seq<Observation>, e: nat)
    requires e <= |log|
  {
    && Entity.EntitiesExact(m, Entity.ItemClaims(Items(log, e)))
    && Entity.NoContradictions(Items(log, e))
  }

  // The tables when the four projectors stand at e, r, c and n.
  ghost predicate TablesAt(cfg: Config, log: seq<Observation>, t: Tables, e: nat, r: nat, c: nat, n: nat) {
    && e <= |log| && c <= r <= |log| && n <= e && n <= c
    && EntitiesAt(t.entities, log, e)
    && GraphAt(t.graph, log, cfg, r, c)
    && ScenesExact(t.graph, t.scenes, n)
  }

  ghost predicate Bookkeeping(s: System) {
    var entries, high := EntriesOfLog(s.log), |s.log|;
    && Contiguous(entries, high)
    && Consistent(entries, high, s.entity)
    && Consistent(entries, high, s.relationship)
    && Consistent(entries, high, s.correlation)
    && Consistent(entries, high, s.scene)
  }

  ghost predicate Invariant(cfg: Config, s: System) {
    && UniqueObservations(s.log)
    && Bookkeeping(s)
    && TablesAt(cfg, s.log, s.tables, s.entity.checkpoint.last, s.relationship.checkpoint.last,
                s.correlation.checkpoint.last, s.scene.checkpoint.last)
  }
}
