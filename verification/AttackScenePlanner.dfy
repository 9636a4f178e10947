/** The attack-scene planner: membership by breadth-first search over derivation-support lineage,
    bounded by an ingest sequence, then spans, entities, observations and state transitions. It is
    modelled on arbitrary stored tables, with every error it can raise. */
module AttackScenePlanner {
  import opened Domain
  import opened Ordering
  import opened Spans
  import opened RelationshipGraph
  import EntityProjection

  datatype IncidentState = PotentialState | ObservedState | ConfirmedState | ContainedState | ClosedState

  datatype Reason = DeterministicExploitObserved | DeterministicCompromiseConfirmed

  datatype Transition = Transition(seqNo: nat, obsId: string, from: IncidentState, to: IncidentState, reason: Reason)

  datatype Plan = Plan(
    root: RelationshipId,
    state: IncidentState,
    span: Span,
    relationships: map<RelationshipId, Span>,
    entities: map<string, Span>,
    observations: map<string, Point>,
    transitions: seq<Transition>
  )

  // The checkpoints a plan depends on.
  datatype Dependencies = Dependencies(entity: nat, relationship: nat, correlation: nat)

  predicate Ready(deps: Dependencies, b: nat) {
    deps.entity >= b && deps.relationship >= b && deps.correlation >= b
  }

  datatype PlanOutcome = Planned(plan: Plan) | NoScene | NotReady | Broken

  /* ----- Bounded queries ----- */

  predicate IsRootRow(row: RelationshipRow) {
    row.provenance == Deterministic && row.rule == Some(CorSeq001) && row.rtype == Exploited
  }

  predicate IsJoiningRow(row: RelationshipRow) {
    && row.provenance == Deterministic
    && (|| (row.rule == Some(CorSeq002) && row.rtype == Compromised)
        || (row.rule == Some(CorSeq003) && row.rtype == MovedLaterallyTo))
  }

  function RootDerivations(g: Graph, root: RelationshipId, b: nat): (ks: set<LineageKey>)
    ensures ks <= g.derivations.Keys
  {
    set k | k in g.derivations && k.rid == root && g.derivations[k].rule == CorSeq001
            && g.derivations[k].triggerSeq <= b
  }

  predicate IsRoot(g: Graph, root: RelationshipId, b: nat) {
    root in g.relationships && IsRootRow(g.relationships[root]) && RootDerivations(g, root, b) != {}
  }

  function SupportsOf(g: Graph, k: LineageKey): set<RelationshipId> {
    set s | s in g.supports && s.key == k :: s.support
  }

  // _reverse_derivations: those at or before b that sup supports.
  function ReverseDerivations(g: Graph, tenant: string, sup: RelationshipId, b: nat): set<LineageKey> {
    set k | k in g.derivations && k.rid in g.relationships && k.rid.tenant == tenant
            && g.derivations[k].triggerSeq <= b && SupportRow(k, sup) in g.supports
  }

  // Of these, the ones whose relationship can join a scene.
  ghost function JoiningDerivations(g: Graph, tenant: string, sup: RelationshipId, b: nat): (ks: set<LineageKey>)
    ensures forall k | k in ks :: k in g.derivations && k.rid in g.relationships
  {
    set k | k in ReverseDerivations(g, tenant, sup, b) && k.rid in g.relationships && IsJoiningRow(g.relationships[k.rid])
  }

  predicate TriggerSound(g: Graph, k: LineageKey)
    requires k in g.derivations
  {
    k in g.lineage && g.lineage[k].seqNo == g.derivations[k].triggerSeq
  }

  predicate HasLineageBefore(g: Graph, rid: RelationshipId, q: nat) {
    exists k :: k in g.lineage && k.rid == rid && g.lineage[k].seqNo < q
  }

  predicate SupportsSound(g: Graph, k: LineageKey)
    requires k in g.derivations
  {
    forall sup | sup in SupportsOf(g, k) :: HasLineageBefore(g, sup, g.derivations[k].triggerSeq)
  }

  // _validate_trigger_lineage and _validated_supports
  predicate DerivationSound(g: Graph, k: LineageKey)
    requires k in g.derivations
  {
    TriggerSound(g, k) && SupportsSound(g, k)
  }

  // A joining derivation also agrees with its relationship on the rule.
  predicate JoiningSound(g: Graph, k: LineageKey)
    requires k in g.derivations && k.rid in g.relationships
  {
    Some(g.derivations[k].rule) == g.relationships[k.rid].rule && DerivationSound(g, k)
  }

  function RowsOf(g: Graph, rid: RelationshipId, b: nat): set<LineageKey> {
    set k | k in g.lineage && k.rid == rid && g.lineage[k].seqNo <= b
  }

  function PointsOf(g: Graph, rid: RelationshipId, b: nat): set<Point> {
    set k | k in RowsOf(g, rid, b) && k in g.lineage :: g.lineage[k]
  }

  predicate EndpointOf(g: Graph, rid: RelationshipId, id: string) {
    rid in g.relationships && (g.relationships[rid].sourceId == id || g.relationships[rid].targetId == id)
  }

  /* ----- Membership as a least fixpoint ----- */

  ghost predicate ClosedUnderJoining(g: Graph, root: RelationshipId, b: nat, s: set<RelationshipId>) {
    && root in s
    && forall u, k | u in s && k in JoiningDerivations(g, root.tenant, u, b) :: k.rid in s
  }

  // The least set that holds the root and every relationship joined by a member.
  ghost function Reachable(g: Graph, root: RelationshipId, b: nat): set<RelationshipId> {
    set rid | rid in g.relationships.Keys + {root}
              && forall s: set<RelationshipId> :: ClosedUnderJoining(g, root, b, s) ==> rid in s
  }

  lemma ReachableIsLeast(g: Graph, root: RelationshipId, b: nat)
    ensures ClosedUnderJoining(g, root, b, Reachable(g, root, b))
    ensures forall s | ClosedUnderJoining(g, root, b, s) :: Reachable(g, root, b) <= s
  {
    hide IsJoiningRow;
    var least := Reachable(g, root, b);
    forall u, k | u in least && k in JoiningDerivations(g, root.tenant, u, b)
      ensures k.rid in least
    {
      forall s: set<RelationshipId> | ClosedUnderJoining(g, root, b, s)
        ensures k.rid in s
      {
        assert u in s;
      }
    }
  }

  // Any order of visiting that ends in a closed set of reachable relationships found them all.
  lemma ReachableFound(g: Graph, root: RelationshipId, b: nat, s: set<RelationshipId>)
    requires ClosedUnderJoining(g, root, b, s) && s <= Reachable(g, root, b)
    ensures s == Reachable(g, root, b)
  {
  }

  ghost function Members(g: Graph, root: RelationshipId, b: nat): set<RelationshipId> {
    Reachable(g, root, b) + RootSupports(g, root, b)
  }

  function RootSupports(g: Graph, root: RelationshipId, b: nat): set<RelationshipId> {
    set k, s | k in RootDerivations(g, root, b) && s in SupportsOf(g, k) :: s
  }

  // The derivations by which members other than the root joined.
  ghost function Qualifying(g: Graph, root: RelationshipId, b: nat): set<LineageKey> {
    set u, k | u in Reachable(g, root, b) && k in JoiningDerivations(g, root.tenant, u, b) :: k
  }

  /* ----- The plan ----- */

  // The order in which a first trigger is chosen.
  predicate Before(g: Graph, j: LineageKey, k: LineageKey)
    requires j in g.derivations && k in g.derivations
  {
    || g.derivations[j].triggerSeq < g.derivations[k].triggerSeq
    || (g.derivations[j].triggerSeq == g.derivations[k].triggerSeq && StringLess(j.obsId, k.obsId))
  }

  ghost predicate IsFirst(g: Graph, ks: set<LineageKey>, k: LineageKey)
    requires ks <= g.derivations.Keys
  {
    k in ks && forall j | j in ks :: !Before(g, j, k)
  }

  function ObservedTransition(g: Graph, k: LineageKey): Transition
    requires k in g.derivations
  {
    Transition(g.derivations[k].triggerSeq, k.obsId, PotentialState, ObservedState, DeterministicExploitObserved)
  }

  function ConfirmedTransition(g: Graph, k: LineageKey): Transition
    requires k in g.derivations
  {
    Transition(g.derivations[k].triggerSeq, k.obsId, ObservedState, ConfirmedState, DeterministicCompromiseConfirmed)
  }

  ghost function Compromises(g: Graph, root: RelationshipId, b: nat): (ks: set<LineageKey>)
    ensures ks <= g.derivations.Keys
  {
    set k | k in Qualifying(g, root, b) && k in g.derivations && g.derivations[k].rule == CorSeq002
  }

  predicate TransitionBefore(s: Transition, t: Transition) {
    s.seqNo < t.seqNo || (s.seqNo == t.seqNo && StringLess(s.obsId, t.obsId))
  }

  function Sorted(s: Transition, t: Transition): seq<Transition> {
    if TransitionBefore(t, s) then [t, s] else [s, t]
  }

  // k triggers the exploit transition, the first of cs, if there is one, the compromise transition.
  ghost predicate TransitionsFrom(g: Graph, k: LineageKey, cs: set<LineageKey>, p: Plan)
    requires k in g.derivations && cs <= g.derivations.Keys
  {
    if cs == {} then
      p.state == ObservedState && p.transitions == [ObservedTransition(g, k)]
    else
      p.state == ConfirmedState &&
      exists j :: IsFirst(g, cs, j) && p.transitions == Sorted(ObservedTransition(g, k), ConfirmedTransition(g, j))
  }

  // One exploit transition at the first root trigger, and one compromise transition at the first
  // qualifying compromise if there is one.
  ghost predicate TransitionsExact(g: Graph, root: RelationshipId, b: nat, p: Plan) {
    exists k :: IsFirst(g, RootDerivations(g, root, b), k) && TransitionsFrom(g, k, Compromises(g, root, b), p)
  }

  ghost predicate SceneRelationships(g: Graph, ms: set<RelationshipId>, b: nat, m: map<RelationshipId, Span>) {
    m.Keys == ms && forall rid | rid in ms :: Covers(m[rid], PointsOf(g, rid, b))
  }

  ghost predicate SceneObservations(g: Graph, ms: set<RelationshipId>, b: nat, m: map<string, Point>) {
    && (forall rid, k | rid in ms && k in RowsOf(g, rid, b) :: k.obsId in m && m[k.obsId] == g.lineage[k])
    && (forall o | o in m :: exists rid, k :: rid in ms && k in RowsOf(g, rid, b) && k.obsId == o)
  }

  ghost function EntityPoints(g: Graph, ms: set<RelationshipId>, b: nat, id: string): set<Point> {
    set rid, p | rid in ms && EndpointOf(g, rid, id) && p in PointsOf(g, rid, b) :: p
  }

  ghost predicate SceneEntities(g: Graph, ms: set<RelationshipId>, b: nat, m: map<string, Span>) {
    && (forall rid, id | rid in ms && EndpointOf(g, rid, id) :: id in m)
    && (forall id | id in m :: Covers(m[id], EntityPoints(g, ms, b, id)))
  }

  ghost predicate IsPlan(g: Graph, root: RelationshipId, b: nat, p: Plan) {
    var ms := Members(g, root, b);
    && p.root == root
    && SceneRelationships(g, ms, b, p.relationships)
    && SceneObservations(g, ms, b, p.observations)
    && SceneEntities(g, ms, b, p.entities)
    && Covers(p.span, p.observations.Values)
    && TransitionsExact(g, root, b, p)
  }

  /* ----- When planning succeeds ----- */

  predicate MemberSound(g: Graph, rid: RelationshipId, b: nat) {
    rid in g.relationships && RowsOf(g, rid, b) != {}
  }

  ghost predicate ObservationsConsistent(g: Graph, ms: set<RelationshipId>, b: nat) {
    forall r, s, j, k | r in ms && s in ms && j in RowsOf(g, r, b) && k in RowsOf(g, s, b) && j.obsId == k.obsId ::
      g.lineage[j] == g.lineage[k]
  }

  ghost predicate EndpointsPresent(g: Graph, ents: EntityProjection.Entities, tenant: string, ms: set<RelationshipId>) {
    forall rid, id | rid in ms && EndpointOf(g, rid, id) :: EntityProjection.EntityKey(tenant, id) in ents
  }

  // Everything the planner validates.
  ghost predicate Plannable(g: Graph, ents: EntityProjection.Entities, root: RelationshipId, b: nat) {
    var ms := Members(g, root, b);
    && (forall k | k in RootDerivations(g, root, b) :: DerivationSound(g, k))
    && (forall k | k in Qualifying(g, root, b) :: JoiningSound(g, k))
    && (forall rid | rid in ms :: MemberSound(g, rid, b))
    && ObservationsConsistent(g, ms, b)
    && EndpointsPresent(g, ents, root.tenant, ms)
  }
}
