# Correlis pipeline, verified model

Correlis is an event-sourced pipeline. Collectors append observations to a gap-free ingest log. Four
projectors read it, each through the same checkpointed runner: entities, relationships, correlation,
attack scenes. The correlation projector writes derived relationships into the graph the relationship
projector is still extending; the attack-scene projector plans scenes over that graph and merges the
plans into stored rows. A live stream and a listing read the same log.

The project models that as one system and proves what holds in every state it can reach, for every
interleaving of ingests, batches, faults, retries, pauses and resumes.

| file | models |
|---|---|
| `Domain.dfy`, `Ordering.dfy`, `Spans.dfy`, `Paging.dfy` | observations, the deterministic relationship id, ordering, min/max bounds, keyset queries |
| `Graph.dfy`, `RelationshipProjection.dfy` | the relationship tables and the relationship projector |
| `EntityProjection.dfy` | the entity projector |
| `CorrelationRules.dfy`, `CorrelationProjection.dfy` | the rules, their evaluation and the correlation projector |
| `CorrelationHistory.dfy`, `CorrelationExactness.dfy`, `CorrelationTheorems.dfy` | the derivations as a recursive definition over the log; the handler writes exactly those; causality, rulesets, typing |
| `DerivedRows.dfy` | which rows each rule writes, read off the tables and the observation's fields |
| `CorrelationStall.dfy` | when the correlation projector stops for good, and a run that makes it |
| `CoreOntology.dfy`, `Identifiers.dfy` | the built-in edge tables and what they decide; when an identifier determines its relationship |
| `AttackScenePlanner.dfy`, `AttackSceneSearch.dfy` | what a plan is; the planner's loops, proved to compute it on arbitrary tables |
| `AttackSceneFacts.dfy`, `AttackSceneStability.dfy`, `AttackSceneExistence.dfy` | plans on handler-built tables: soundness, uniqueness, stability, growth |
| `SceneContents.dfy` | what a plan lists, read off the stored rows |
| `AttackSceneProjection.dfy` | the scene handler: root paging and the four merges |
| `ProjectionRunner.dfy`, `RunReports.dfy` | the runner's state machine; what a run reports and records |
| `GraphInvariants.dfy`, `Pipeline.dfy`, `PipelineSteps.dfy`, `PipelineTheorems.dfy`, `PipelineProgress.dfy`, `SceneHistory.dfy`, `Guarantees.dfy`, `Readings.dfy` | the whole system, its invariant and the main theorems; `Guarantees` states them over runs, `Readings` says what a reader of the tables finds after any run |
| `ObservationLog.dfy`, `LogStore.dfy`, `StoreHistory.dfy` | the log store against its log, over single writes and whole histories |
| `Ingestion.dfy`, `RepeatedBatches.dfy`, `ObservationListing.dfy` | the batch endpoint, what a repeated batch is answered, keyset listing |
| `ObservationStream.dfy`, `Sse.dfy` | the live stream and its framing |

Main results, in the order they build on each other:

1. The planner's search is a least fixpoint and `PlanScene` is exact on arbitrary tables
   (`AttackSceneSearch`).
2. The correlation tables are exactly a recursive definition over the log prefix
   (`CorrelationExactness.StepExact`), with an exact condition for when the handler raises
   (`CorrelationExactness.StepSucceeds`).
3. The runner refines the fold of its handler over a log prefix (`ProjectionRunner.HistoryRefines`).
4. In every reachable state the tables are what the log and the four checkpoints determine
   (`PipelineTheorems.ReachableInvariant`); hence schedule independence, incremental storage equal to
   recomputation, and no defensive raise but the dependency gates (`Guarantees`).
5. The log store, its batches, its listing, the stream and the framing do the same for the log itself.

How the model is put together:

- A table is a finite map and a batch is an atomic step that commits or rolls back. Step-by-step code is
  a method over a class or loop variables, proved equal to a function of the old state; theorems are
  about those functions. The lemmas named `...Read` and `...Reports` say what they come to in plain fields,
  without the definitions code and theorems share.
- Handlers report a poison item (`Poison`), or raise an error that rolls the batch back (`Aborted`). Faults
  the environment may inject into any handler call are part of every run.
- Identifiers that are hashes are taken to be injective, so a relationship id is its components. For the
  hashed text of relationship ids `Identifiers.DeterminedIffOneSplit` gives the exact condition for that
  within a tenant.
- The rules consult one ontology and the handlers check what they write against a registry that may be
  another; the configuration carries both. Entity references are not checked against a registry, which
  defines every entity type.
- Ingest sequences are `nat`, times `int`, confidences `real`. Wall-clock columns are not modelled.
- One set of registered projector versions is configured, so version columns and configuration checks do
  not appear.
- In the whole-system model an operator may contain or close a stored scene at any time; the handler must
  respect that, and its theorems allow for it.

Where the code does something its purpose does not suggest:

- `ObservationListing.Walk`: an observation with an empty id cannot serve as an anchor, so following the
  anchors breaks off exactly when such an observation falls on a page boundary
  (`StoreHistory.EmptyIdStopsWalk` is such a store).
- `RepeatedBatches.RecordKept`: repeating a batch reports the same items as conflicts, but an evidence
  conflict names the same record only under an exact condition; `LaterItemTakesTheKey` and
  `LaterItemContradictsEarlier` are the two ways it fails.
- `StoreHistory.FailsIffRepeated`: an observation that names one evidence id twice passes the checks before
  the write and then violates the link table's key on both attempts, which the batch endpoint reports as
  the store being unavailable (`StoreHistory.RepeatedIdFails`).
- `Sse.RoundTrip`: payloads with a raw U+0085, U+2028 or U+2029 do not survive, because the encoder splits
  them with the language's notion of a line.
- `CorrelationStall.StalledForever`: an entity id given two types makes the correlation handler raise, and
  roll its batch back, on every attempt rather than record a poison item (`TwiceTypedStalls` is such a
  run). `Guarantees.CorrelationHandlerOnlyWaits` shows that types can only do this to a correlation
  projector running ahead of the entity projector, which stops at such an item.
- `Identifiers.MaterialCollides`: the hashed text does not determine the relationship when entity ids
  contain what reads as a type between separators. `Identifiers.CollisionRefused` shows what follows: the
  second relationship is refused by the identity check, not merged into the first.

## Model

| member | source | states |
|---|---|---|
| `AttackScenePlanner.ReachableIsLeast` | packages/correlis-store/src/correlis_store/attack_scene_planner.py:244-265 | The joining relationships are a least fixpoint: the set contains the root, is closed under reverse bounded support edges through joining derivations, and is contained in every set that is. |
| `AttackScenePlanner.ReachableFound` | packages/correlis-store/src/correlis_store/attack_scene_planner.py:244-265 | Any closed set the traversal stays inside of is that least set, so the visiting order does not matter. |
| `AttackSceneSearch.Expand` | packages/correlis-store/src/correlis_store/attack_scene_planner.py:246-265 | One dequeued support: its joining derivations are validated and collected, new relationships enqueued once; it fails exactly when one of them is unsound. |
| `AttackSceneSearch.Search` | packages/correlis-store/src/correlis_store/attack_scene_planner.py:243-265 | The breadth-first loop terminates and returns exactly the least closed set and the derivations that joined it, on arbitrary tables; it raises exactly when a joining derivation is unsound. |
| `AttackSceneSearch.CollectObservations` | packages/correlis-store/src/correlis_store/attack_scene_planner.py:498-505 | A relationship's bounded rows are added to the observations seen so far, raising exactly when one contradicts them. |
| `AttackSceneSearch.Memberships` | packages/correlis-store/src/correlis_store/attack_scene_planner.py:467-509 | Spans are the true bounds of each member's bounded lineage, observations are exactly the lineage of the members, entities are exactly their endpoints with the joined bounds; it raises exactly when a member is missing, has no bounded lineage, or two rows contradict. |
| `AttackSceneSearch.FirstOf` | packages/correlis-store/src/correlis_store/attack_scene_planner.py:279-298 | The earliest trigger by (ingest sequence, observation id). |
| `AttackSceneSearch.PlanTransitions` | packages/correlis-store/src/correlis_store/attack_scene_planner.py:279-309 | The exploit transition at the first root trigger, the compromise transition at the first qualifying compromise if there is one, sorted, and the matching state. |
| `AttackSceneSearch.PlanScene` | packages/correlis-store/src/correlis_store/attack_scene_planner.py:222-328 | On arbitrary tables: dependency error iff a checkpoint is behind the boundary, no scene iff the root does not qualify, invariant error iff some validation fails, and otherwise a plan that is exactly the specified one. |
| `SceneContents.MembersRead` | packages/correlis-store/src/correlis_store/attack_scene_planner.py:238-265 | A relationship is in a plan if and only if it is the root, is in every set that holds the root and whatever is derived from what it holds, or supports an exploit row of the root up to the boundary. |
| `SceneContents.ContentsRead` | packages/correlis-store/src/correlis_store/attack_scene_planner.py:467-534 | In terms of lineage rows: the plan's observations are exactly those of what it lists, at their recorded positions and times; its entities exactly the endpoints; every span holds its points and attains each bound. |
| `SceneContents.TransitionsRead` | packages/correlis-store/src/correlis_store/attack_scene_planner.py:279-309 | In terms of derivation rows: the first transition is at the root's first exploit row; there is a second exactly if the root supports a compromise row, at the first of those; and the state is confirmed exactly then. |
| `SceneContents.RootsRead` | packages/correlis-store/src/correlis_store/attack_scene_planner.py:153-187 | A relationship is a root exactly if some row up to the boundary derives it by COR-SEQ-001. |
| `SceneContents.PlannableRead` | packages/correlis-store/src/correlis_store/attack_scene_planner.py:419-534 | On arbitrary tables planning succeeds if and only if the rows it uses have their trigger lineage and supports with strictly earlier lineage and agree on the rule, members are stored with bounded lineage, no observation is recorded in two ways, and every endpoint has an entity. |
| `AttackSceneFacts.CompromiseIsDirect` | packages/correlis-store/src/correlis_store/attack_scene_planner.py:292-298 | A qualifying compromise is one the root itself supports, never one reached through another member. |
| `AttackSceneFacts.SceneShape` | packages/correlis-store/src/correlis_store/attack_scene_planner.py:243-265 | Whatever joins a scene is the compromise of the exploited entity by the exploiting one, or a lateral move out of the exploited entity. |
| `AttackSceneFacts.GateSound` | packages/correlis-store/src/correlis_store/attack_scene_planner.py:419-534 | On handler-built tables with the dependencies past the boundary, every planner validation succeeds for every root. |
| `AttackSceneFacts.RootPrecedesCompromise` | packages/correlis-store/src/correlis_store/attack_scene_planner.py:279-308 | The first exploit trigger is strictly before every qualifying compromise. |
| `AttackSceneFacts.TransitionChain` | packages/correlis-store/src/correlis_store/attack_scene_planner.py:283-309 | Transitions form the chain potential, observed, confirmed with strictly increasing ingest sequences, and the state is where the chain ends. |
| `AttackSceneFacts.ConfirmedIffJoined` | packages/correlis-store/src/correlis_store/attack_scene_policy.py:87-96 | A scene is confirmed if and only if anything has joined its root; in particular with a lateral move, which makes no transition of its own. |
| `AttackSceneFacts.PlanUnique` | packages/correlis-store/src/correlis_store/attack_scene_planner.py:310-328 | The specified plan is unique, so the planner is a function of its tables, root and boundary. |
| `AttackSceneExistence.PlanExists` | packages/correlis-store/src/correlis_store/attack_scene_planner.py:222-328 | A root whose validations succeed has a plan. |
| `AttackSceneStability.SnapshotStable` | packages/correlis-store/src/correlis_store/attack_scene_planner.py:222-328 | Two handler-built stores with the same rows up to the boundary have the same roots and the same plans there, whatever else they hold. |
| `AttackSceneStability.TransitionsGrow` | packages/correlis-store/src/correlis_store/attack_scene_planner.py:279-309 | Neither chosen trigger is revised as the boundary grows: earlier transitions are a prefix of later ones and confirmation is kept. |
| `AttackSceneStability.PlansGrow` | packages/correlis-store/src/correlis_store/attack_scene_planner.py:222-328 | Plans only grow with the boundary: members, entities and observations stay, observations unchanged. |
| `AttackSceneStability.OtherTenantQuiet` | packages/correlis-store/src/correlis_store/attack_scene_projection_handler.py:58-70 | Another tenant's observation changes none of a tenant's plans, so re-planning only the item's tenant is enough. |
| `Paging.PageExtends` | packages/correlis-store/src/correlis_store/attack_scene_planner.py:182-187 | A page after an anchor extends the visited prefix without gap or repeat, and a short page completes it. |
| `Paging.AscendingUnique` | packages/correlis-store/src/correlis_store/attack_scene_planner.py:182-187 | A complete ordered visit has one possible result, whatever the page size. |
| `AttackSceneProjection.CollectPlans` | packages/correlis-store/src/correlis_store/attack_scene_projection_handler.py:58-84 | The 500-item root loop visits every bounded root of the tenant exactly once and succeeds iff every one of them can be planned. |
| `AttackSceneProjection.PersistSpans` | packages/correlis-store/src/correlis_store/attack_scene_projection_handler.py:172-258 | The relationship and entity merges raise iff a stored key is not planned, and otherwise leave exactly the planned rows. |
| `AttackSceneProjection.PersistObservations` | packages/correlis-store/src/correlis_store/attack_scene_projection_handler.py:260-290 | The observation merge raises iff a stored row is unplanned or differs, and otherwise leaves exactly the planned rows. |
| `AttackSceneProjection.PersistTransitions` | packages/correlis-store/src/correlis_store/attack_scene_projection_handler.py:292-325 | The transition merge inserts missing rows and raises iff a stored row differs. |
| `AttackSceneProjection.SceneStore.PersistPlan` | packages/correlis-store/src/correlis_store/attack_scene_projection_handler.py:102-162 | The whole stored scene after a plan is merged, with the state rule, and no change to any other scene. |
| `AttackSceneProjection.PersistAll` | packages/correlis-store/src/correlis_store/attack_scene_projection_handler.py:98-100 | Merging the plans in order leaves every planned root merged and every other scene untouched. |
| `AttackSceneProjection.Handle` | packages/correlis-store/src/correlis_store/attack_scene_projection_handler.py:58-100 | The handler refuses until its dependencies are ready, raises iff some root fails to plan or merge, and otherwise leaves every root of the tenant merged with its plan. |
| `CorrelationProjection.EvaluateRules` | packages/correlis-store/src/correlis_store/correlation_graph.py:407-428 | The rules are evaluated in order; a contradiction of endpoint types in any of them raises. |
| `CorrelationProjection.PersistCandidate` | packages/correlis-store/src/correlis_store/correlation_projection.py:109-146 | All writes for one candidate to the six tables, and the exact conditions of its invariant errors. |
| `CorrelationProjection.Handle` | packages/correlis-store/src/correlis_store/correlation_projection.py:83-107 | The relationship-checkpoint gate, then every candidate persisted, or nothing. |
| `CorrelationProjection.PersistFails` | packages/correlis-store/src/correlis_store/correlation_projection.py:109-398 | On arbitrary tables persisting raises exactly for a refused edge, another stored identity or endpoint type, a differing stored derivation, or a support that is the relationship itself or missing. |
| `CorrelationHistory.FactsExact` | packages/correlis-store/src/correlis_store/correlation_graph.py:36-208 | The three prior-relationship queries return exactly the relationships with earlier entries the rule builds on. |
| `CorrelationHistory.EvidenceExactFor` | packages/correlis-store/src/correlis_store/correlation_graph.py:210-239 | The prior-evidence query returns exactly the evidence of those earlier entries. |
| `CorrelationHistory.EvaluateExact` | packages/correlis-store/src/correlis_store/correlation_graph.py:242-404 | Each rule matches, conflicts or stays silent as its definition over the known entries says, and a match carries the defined derivation. |
| `CorrelationHistory.DerivationMember` | packages/correlis-store/src/correlis_store/correlation_graph.py:407-428 | The recursive history over the log is closed under its own definition: its members are exactly the derivations justified by everything known before their trigger. |
| `CorrelationHistory.GraphUnique` | packages/correlis-store/src/correlis_store/correlation_projection.py:109-146 | The log, the relationship checkpoint and the derivations determine every row of the graph. |
| `CorrelationExactness.PersistExact` | packages/correlis-store/src/correlis_store/correlation_projection.py:109-146 | Persisting a justified derivation adds exactly that derivation to all tables. |
| `CorrelationExactness.StepExact` | packages/correlis-store/src/correlis_store/correlation_projection.py:83-107 | One handled item takes the tables from the history before it to the history including it, wherever the relationship projector stands beyond it. |
| `CorrelationExactness.StepSucceeds` | packages/correlis-store/src/correlis_store/correlation_projection.py:83-107 | The handler succeeds if and only if the relationship checkpoint has reached the item, the known entries type the endpoints consistently and its registry admits every derived edge. |
| `CorrelationExactness.PersistSucceeds` | packages/correlis-store/src/correlis_store/correlation_projection.py:109-146 | Persisting fails exactly when the handler's registry refuses the edge or earlier entries type its endpoints otherwise: the derivation, self-support and missing-support errors cannot occur. |
| `CorrelationExactness.CoveringPermits` | packages/correlis-store/src/correlis_store/correlation_projection.py:109-127 | A registry that admits what the rules' ontology admits never refuses a derivation; the deployed handler is such a case, both being the built-in ontology. |
| `DerivedRows.ExploitRow` | packages/correlis-store/src/correlis_store/correlation_graph.py:242-285 | In literal row and observation fields: COR-SEQ-001 has written a row for an observation if and only if it is an exploit attempt on an object with an earlier observed vulnerability and the ontology lets its subject exploit it. |
| `DerivedRows.CompromiseRow` | packages/correlis-store/src/correlis_store/correlation_graph.py:338-397 | Likewise COR-SEQ-002: ruleset 2 or 3, process activity, a suspicious child, an attack source and object between which an earlier relationship, observed or derived, is exploited, and an admitted edge. |
| `DerivedRows.LateralMoveRow` | packages/correlis-store/src/correlis_store/correlation_graph.py:288-335 | Likewise COR-SEQ-003: ruleset 3, an authentication from an entity an earlier relationship, observed or derived, has as compromised, and an admitted edge. |
| `DerivedRows.RowRecorded` | packages/correlis-store/src/correlis_store/correlation_projection.py:195-373 | Such a row carries its position and time and confidence 0.85, 0.92 or 0.90; its lineage and relationship rows carry the same, with the rule's relationship type and endpoints. |
| `DerivedRows.SupportsAndEvidence` | packages/correlis-store/src/correlis_store/correlation_projection.py:140-146 | Its supports are exactly the relationships it builds on, its trigger evidence the observation's and its support evidence theirs. |
| `CorrelationTheorems.SupportIsPrior` | packages/correlis-store/src/correlis_store/correlation_graph.py:36-208 | Every support has an entry strictly before its trigger. |
| `CorrelationTheorems.Grounded` | packages/correlis-store/src/correlis_store/correlation_graph.py:242-428 | Following supports from any derivation ends, at an observed relationship stated strictly earlier by the same tenant. |
| `CorrelationTheorems.RulesetsConservative` | packages/correlis-store/src/correlis_store/correlation_rules.py:137-190 | A larger ruleset derives the same things through the rules of a smaller one. |
| `CorrelationTheorems.SharedRowsAgree` | packages/correlis-store/src/correlis_store/correlation_rules.py:137-190 | The stored relationship, lineage, relationship-evidence, derivation, support and evidence-role rows of the shared rules are the same under both rulesets. |
| `CorrelationTheorems.EndpointsReferenced` | packages/correlis-store/src/correlis_store/correlation_graph.py:338-404 | Both endpoints of every recorded relationship, the attack source of COR-SEQ-002 included, were referenced with that type by an observation at or before it. |
| `CorrelationTheorems.OneTypeSucceeds` | packages/correlis-store/src/correlis_store/correlation_projection.py:83-107 | On a log that gives each entity id one type the handler succeeds exactly when its gate is open and its registry admits what the rules derive. |
| `CoreOntology.KnownEdgesValid` | packages/correlis-store/src/correlis_store/correlation_projection.py:110-127 | Every known relationship of a log whose edges obey the rules' ontology obeys it too, stated or derived. |
| `CoreOntology.OntologyDecides` | packages/correlis-ontology/src/correlis_ontology/core.py:157-277 | With the built-in tables a compromise is derived whenever its trigger has an earlier exploit to build on, and an exploit exactly when the attacker's type may exploit. |
| `RelationshipGraph.RecordExact` | packages/correlis-store/src/correlis_store/relationship_projection.py:118-247 | Recording an entry keeps every aggregate exact: bounds are true minima and maxima, confidence the maximum, lineage and evidence rows exactly those of the entries. |
| `RelationshipGraph.TablesUnique` | packages/correlis-store/src/correlis_store/relationship_projection.py:118-247 | The entries determine the aggregate tables. |
| `RelationshipGraph.GraphStore.UpsertRelationship` | packages/correlis-store/src/correlis_store/relationship_projection.py:118-202 | The row after an upsert, and refusal, without change, iff the stored identity differs. |
| `RelationshipGraph.GraphStore.UpsertEvidence` | packages/correlis-store/src/correlis_store/relationship_projection.py:204-247 | The evidence bounds after an upsert of each id. |
| `RelationshipProjection.Handle` | packages/correlis-store/src/correlis_store/relationship_projection.py:64-116 | One item: nothing without an edge, poison without an object or against the ontology, otherwise exactly its entry recorded. |
| `RelationshipProjection.ProjectExact` | packages/correlis-store/src/correlis_store/relationship_projection.py:64-247 | After any sequence of items the tables are the exact aggregate of the set of observed edges. |
| `RelationshipProjection.RowsRead` | packages/correlis-store/src/correlis_store/relationship_projection.py:118-202 | In terms of the observations: a row exists exactly for what is stated, with its identity, the greatest stated confidence and true bounds. |
| `RelationshipProjection.LineageRead` | packages/correlis-store/src/correlis_store/relationship_projection.py:99-115 | Lineage rows are exactly the statements at their positions and times, evidence rows exactly their evidence. |
| `RelationshipProjection.StepReports` | packages/correlis-store/src/correlis_store/relationship_projection.py:64-98 | One item: nothing without a relationship, the two poison codes and the identity error each exactly under its condition. |
| `RelationshipProjection.ProjectSucceeds` | packages/correlis-store/src/correlis_store/relationship_projection.py:64-116 | A sequence is accepted if and only if every edge obeys the ontology and no relationship is given two endpoint typings. |
| `RelationshipProjection.OrderAndRepetitionIrrelevant` | packages/correlis-store/src/correlis_store/relationship_projection.py:118-247 | Permuting or repeating items changes neither acceptance nor result. |
| `EntityProjection.EntityStore.Upsert` | packages/correlis-store/src/correlis_store/entity_projection.py:153-223 | The row after an upsert, and refusal, without change, iff the stored type differs. |
| `EntityProjection.EntityStore.Handle` | packages/correlis-store/src/correlis_store/entity_projection.py:94-120 | One item: poison on contradictory references or a type conflict, otherwise each referenced entity upserted once. |
| `EntityProjection.ProjectExact` | packages/correlis-store/src/correlis_store/entity_projection.py:153-223 | Label and attributes are those of the lexicographically greatest (event time, ingest sequence) claim and the bounds are true minima and maxima. |
| `EntityProjection.RowsRead` | packages/correlis-store/src/correlis_store/entity_projection.py:153-223 | In terms of the observations: a row exists exactly for what is referred to; it shows the reference with the greatest event time and, among these, the greatest ingest sequence; every reference has its type and lies within its attained bounds. |
| `EntityProjection.ProjectRead` | packages/correlis-store/src/correlis_store/entity_projection.py:153-223 | The same of any accepted sequence of items. |
| `EntityProjection.StepReports` | packages/correlis-store/src/correlis_store/entity_projection.py:94-113 | One item: the two poison codes each exactly under its condition, and never an error. |
| `EntityProjection.LatestClaimIsLastSeen` | packages/correlis-store/src/correlis_store/entity_projection.py:200-220 | The latest claim time is the last sighting and its sequence lies between the first and the last. |
| `EntityProjection.ProjectSucceeds` | packages/correlis-store/src/correlis_store/entity_projection.py:94-113 | A sequence is accepted if and only if no observation contradicts itself and no entity id is given two types. |
| `EntityProjection.OrderAndRepetitionIrrelevant` | packages/correlis-store/src/correlis_store/entity_projection.py:153-223 | Permuting or repeating items changes neither acceptance nor result. |
| `ProjectionRunner.ProjectorRows.Loop` | packages/correlis-store/src/correlis_store/projection_runner.py:94-163 | The batch loop as it updates checkpoint, failure and projection rows, with every raise. |
| `ProjectionRunner.ProjectorRows.Batch` | packages/correlis-store/src/correlis_store/projection_runner.py:56-178 | One run: result, committed bookkeeping and state, and full rollback on a raise. |
| `ProjectionRunner.ProjectorRows.UpsertFailure` | packages/correlis-store/src/correlis_store/projection_runner.py:287-330 | The failure row and the checkpoint after a poison item. |
| `ProjectionRunner.ProjectorRows.MarkProcessed` | packages/correlis-store/src/correlis_store/projection_runner.py:156-163 | The checkpoint and the resolved failure after a handled item. |
| `ProjectionRunner.ProjectorRows.Pause` | packages/correlis-store/src/correlis_store/projection_repository.py:181-190 | Pausing a projector that has not failed; a failed one is refused unchanged. |
| `ProjectionRunner.ProjectorRows.Resume` | packages/correlis-store/src/correlis_store/projection_repository.py:192-201 | Resuming a projector that has not failed; a failed one is refused unchanged. |
| `ProjectionRunner.BatchConsistent` | packages/correlis-store/src/correlis_store/projection_runner.py:56-255 | Every batch keeps the checkpoint invariant, never raises for an inconsistent state of its own, and without a failure advances by exactly the limit or to the captured high watermark. |
| `RunReports.RunOutcome` | packages/correlis-store/src/correlis_store/projection_runner.py:64-176 | Each outcome of a run exactly when it applies: caught up iff it ends at the captured high watermark, advanced iff short of it, paused, blocked and failed for those reasons; with the high watermark and failed sequence it reports, and refusal exactly for a limit outside 1 to 500 or a raise. |
| `RunReports.FailureReported` | packages/correlis-store/src/correlis_store/projection_runner.py:109-155 | A failed run stopped at an item a handler error or an unexpected exception rejected, with the state before that call, and recorded its code; other codes stand. |
| `RunReports.InconsistencyReported` | packages/correlis-store/src/correlis_store/projection_runner.py:205-255 | On any projector rows, a run over a contiguous log reports an inconsistent state iff the checkpoint is unsound, its failure row is not the log's entry or it stands past the log (the last two not looked at when paused); a refused run changes nothing. |
| `RunReports.LastCodeRecorded` | packages/correlis-store/src/correlis_store/projection_runner.py:287-330 | Over any history an item's failure row holds the code of the last call that failed there. |
| `RunReports.RaiseReported` | packages/correlis-store/src/correlis_store/projection_runner.py:132-135 | A batch is rolled back only because some call raised or the infrastructure failed. |
| `RunReports.PauseHolds` | packages/correlis-store/src/correlis_store/projection_repository.py:181-201 | A paused projector's runs report it and change nothing until it is resumed; a failed one can be neither paused nor resumed. |
| `ProjectionRunner.AttemptsCounted` | packages/correlis-store/src/correlis_store/projection_runner.py:287-330 | A failure row counts exactly the batches that failed at its item; blocked and rolled-back batches do not count. |
| `ProjectionRunner.HistoryRefines` | packages/correlis-store/src/correlis_store/projection_runner.py:56-178 | For any handler and history of appends, batches, faults, retries, pauses and resumes, the state is the in-order fold of the handler over the log up to the checkpoint. |
| `ProjectionRunner.BatchPreserves` | packages/correlis-store/src/correlis_store/projection_runner.py:94-163 | What a handled item preserves relative to the checkpoint, a batch preserves. |
| `ProjectionRunner.BatchGated` | packages/correlis-store/src/correlis_store/projection_runner.py:94-178 | A batch of a handler that waits for others advances completely iff it may handle every item of the batch, and otherwise rolls back completely. |
| `GraphInvariants.ExactWellFormed` | packages/correlis-store/src/correlis_store/correlation_projection.py:83-146 | Every graph the two projectors can have written satisfies the planner's invariants. |
| `GraphInvariants.ExactSameRows` | packages/correlis-store/src/correlis_store/correlation_projection.py:83-193 | Two graphs over one log hold the same rows up to a boundary both projectors have passed, wherever they stand beyond it. |
| `GraphInvariants.ExactAfterAppend` | packages/correlis-store/src/correlis_store/correlation_graph.py:407-428 | Appending to the log changes no row already written. |
| `GraphInvariants.EntitiesCoverExact` | packages/correlis-store/src/correlis_store/attack_scene_planner.py:511-523 | An entity projector past the boundary has both endpoints of everything recorded up to it. |
| `GraphInvariants.AcceptedIsOneType` | packages/correlis-store/src/correlis_store/entity_projection.py:186-190 | What the entity projector has accepted gives each entity id one type. |
| `PipelineSteps.WriteOverPrefix` | packages/correlis-store/src/correlis_store/attack_scene_projection_handler.py:292-325 | Writing a longer transition list over the rows of its prefix never mismatches and leaves the rows of the longer list. |
| `PipelineSteps.ScenesMoved` | packages/correlis-store/src/correlis_store/attack_scene_projection_handler.py:58-100 | Upstream progress leaves every stored scene equal to its plan. |
| `PipelineSteps.SceneItem` | packages/correlis-store/src/correlis_store/attack_scene_projection_handler.py:58-100 | Handling one item leaves the scenes of every tenant equal to their plans at the new boundary. |
| `PipelineSteps.HandlerKeeps` | packages/correlis-store/src/correlis_store/projection_runner.py:109-111 | One handled item of any projector keeps all tables exactly what the log and the four checkpoints determine. |
| `PipelineTheorems.ReachableInvariant` | packages/correlis-store/src/correlis_store/projection_runner.py:56-178 | In every reachable state of the whole system the bookkeeping is consistent and the tables are exactly what the log and the checkpoints determine. |
| `PipelineTheorems.ScheduleIndependence` | packages/correlis-store/src/correlis_store/correlation_projection.py:83-193 | Histories that end with the same log and checkpoints end with the same entities, relationships, lineage, derivations, supports, evidence and scenes; without operator commands with equal tables. |
| `PipelineProgress.IncrementalEqualsRecompute` | packages/correlis-store/src/correlis_store/attack_scene_projection_handler.py:58-325 | In every reachable state the stored scenes are those of the roots at the scene checkpoint, each showing the plan computed from scratch, which succeeds. |
| `PipelineProgress.SceneBatchAdvances` | packages/correlis-store/src/correlis_store/projection_runner.py:94-178 | A scene batch advances by the whole batch if its dependencies are past its end, and otherwise leaves everything as it was. |
| `PipelineProgress.CorrelationBatchAdvances` | packages/correlis-store/src/correlis_store/correlation_projection.py:182-193 | Behind the entity projector, a correlation batch advances completely if the relationship projector is past its end and the registry admits what the rules derive, and otherwise leaves everything as it was. |
| `Readings.DerivedRowsRead` | packages/correlis-store/src/correlis_store/correlation_projection.py:83-146 | After any run, for every observation the correlation projector has passed, each rule has written its row exactly when its literal conditions hold on the tables, with its content. |
| `Readings.HandledItemRead` | packages/correlis-store/src/correlis_store/correlation_projection.py:83-146 | The same on the tables right after a handled item. |
| `Readings.SceneMembersRead` | packages/correlis-store/src/correlis_store/attack_scene_projection_handler.py:102-214 | After any run the stored scenes are exactly those of relationships derived by COR-SEQ-001 up to the scene checkpoint, and each lists exactly its root, what is derived from it, and what supports its root. |
| `Readings.SceneListsSupports` | packages/correlis-store/src/correlis_store/attack_scene_planner.py:238-241 | After any run a stored scene lists every support of every derivation of its root that the log gives up to the scene checkpoint. |
| `Readings.SceneContentsRead` | packages/correlis-store/src/correlis_store/attack_scene_projection_handler.py:102-325 | After any run a stored scene's observations, entities, spans, transition rows and state are those of the rows of what it lists. |
| `Readings.EntitiesRead` | packages/correlis-store/src/correlis_store/entity_projection.py:153-223 | After any run the entity rows show the log up to the entity checkpoint. |
| `Readings.ObservedRelationshipsRead` | packages/correlis-store/src/correlis_store/relationship_projection.py:64-247 | After any run the observed relationship, lineage and evidence rows show the log up to the relationship checkpoint. |
| `Guarantees.StoredScenesAgree` | packages/correlis-store/src/correlis_store/attack_scene_projection_handler.py:58-100 | After any two runs whose logs extend one another and whose scene projectors stand at one position, the stored scenes agree, however far upstream projectors have run. |
| `Guarantees.EveryRootPlans` | packages/correlis-store/src/correlis_store/attack_scene_planner.py:419-534 | After any run, every root can be planned at every boundary the dependencies have reached: no planner invariant error is reachable. |
| `Guarantees.BoundedPlansAgree` | packages/correlis-store/src/correlis_store/attack_scene_planner.py:124-140 | After any two runs whose logs extend one another and whose dependencies have reached a boundary, the roots and plans there are the same. |
| `Guarantees.SceneHandlerOnlyWaits` | packages/correlis-store/src/correlis_store/attack_scene_projection_handler.py:58-325 | After any run the scene handler succeeds on its next item iff its dependencies are ready: no membership, observation or transition mismatch is reachable. |
| `Guarantees.CorrelationHandlerOnlyWaits` | packages/correlis-store/src/correlis_store/correlation_projection.py:83-193 | After any run, behind the entity projector, the correlation handler succeeds on its next item iff the relationship projector is past it and its registry admits what the rules derive. |
| `Guarantees.RelationshipHandlerNeverRaises` | packages/correlis-store/src/correlis_store/relationship_projection.py:64-202 | After any run, behind the entity projector, the relationship handler never raises and rejects as poison exactly the edges without an object or against the ontology. |
| `Guarantees.ActiveScenesConfirmed` | packages/correlis-store/src/correlis_store/attack_scene_policy.py:87-96 | After any run, a stored scene holding a compromise or a lateral move is confirmed, or was contained or closed by an operator. |
| `CorrelationStall.NextCorrelation` | packages/correlis-store/src/correlis_store/correlation_projection.py:83-193 | After any run, wherever the entity projector stands, the correlation handler succeeds on its next item if and only if its gate is open, the known entries agree on endpoint types and its registry admits what the rules derive; otherwise it raises. |
| `CorrelationStall.StalledForever` | packages/correlis-store/src/correlis_store/correlation_graph.py:305-309 | An item that fails the last two stops the projector for good: whatever follows in the run, the handler raises on every attempt and the checkpoint stays. |
| `CorrelationStall.TwiceTypedStalls` | packages/correlis-store/src/correlis_store/correlation_graph.py:363-368 | A run in which an entity id typed twice stalls the correlation projector with its gate open. |
| `Guarantees.CheckpointsOrdered` | packages/correlis-store/src/correlis_store/correlation_projection.py:182-193 | After any run correlation has not passed relationship, scenes have not passed their dependencies, and none has passed the log. |
| `Guarantees.EveryRunCatchesUp` | packages/correlis-store/src/correlis_store/projection_runner.py:56-178 | After any run over a clean log that leaves no projector paused or failed, enough batches in dependency order bring all four to the end of the log. |
| `SceneHistory.MergeKeeps` | packages/correlis-store/src/correlis_store/attack_scene_projection_handler.py:139-160 | A merge never regresses a scene, leaves contained and closed scenes so, and neither drops a member nor revises an observation or transition. |
| `SceneHistory.ScenesOnlyGrow` | packages/correlis-store/src/correlis_store/attack_scene_projection_handler.py:149-325 | Over any run no scene is lost, regresses, sheds a member or has a recorded transition revised. |
| `LogStore.Store.WriteAllEvidence` | packages/correlis-store/src/correlis_store/repository.py:92-113 | The evidence loop stops at the first clash and otherwise leaves exactly the specified table. |
| `LogStore.Store.EnsureEvidenceMatches` | packages/correlis-store/src/correlis_store/repository.py:324-331 | The first reference whose stored record is missing or different. |
| `LogStore.Store.Attempt` | packages/correlis-store/src/correlis_store/repository.py:77-146 | One transaction on arbitrary tables, with each conflict and error. |
| `LogStore.Store.Put` | packages/correlis-store/src/correlis_store/repository.py:60-75 | Commit or roll back, with one retry after an integrity error: the tables change only on a committed outcome. |
| `LogStore.EvidenceWritten` | packages/correlis-store/src/correlis_store/repository.py:92-113 | The evidence loop fails exactly at the first conflict with known or earlier evidence and otherwise adds what is new, touching no other tenant. |
| `LogStore.LinksWritten` | packages/correlis-store/src/correlis_store/repository.py:132-138 | The link rows violate their key if and only if an observation repeats an evidence id. |
| `LogStore.WriteRefines` | packages/correlis-store/src/correlis_store/repository.py:60-159 | On tables holding a log a write does what the log says: conflict, existing at its position, or appended at the next position; the entries stay exactly 1 to last in bijection with unchanged observations. |
| `LogStore.OneLog` | packages/correlis-store/src/correlis_store/repository.py:139-145 | The tables determine the log. |
| `LogStore.OneStore` | packages/correlis-store/src/correlis_store/repository.py:77-146 | The log determines the tables, evidence and links included. |
| `ObservationLog.PutSound` | packages/correlis-store/src/correlis_store/repository.py:85-113 | Observations stay unique and evidence ids keep one meaning. |
| `ObservationLog.RepeatedWrite` | packages/correlis-store/src/correlis_store/repository.py:85-100 | Repeating a write against any later log finds the observation where it was, and what conflicted still conflicts. |
| `RepeatedBatches.BatchIdempotent` | services/api/src/correlis_api/ingestion.py:218-256 | Sending a whole batch again changes nothing, and each item's second answer is determined: created and existing become existing at the same position, a failure and a conflict with an observation repeat, an evidence conflict becomes a conflict with the observation a later item stored under its key or else the first conflict with what was known then or brought later in the batch. |
| `RepeatedBatches.RecordKept` | services/api/src/correlis_api/ingestion.py:228-239 | An evidence conflict names the same record again if and only if no later item was stored under its key and the first of its references that later created items contradict, if before the conflicting one, is about the same record. |
| `RepeatedBatches.ConflictIsFirst` | packages/correlis-store/src/correlis_store/repository.py:92-100 | The record reported is that of the first reference contradicted by a stored one or one before it. |
| `RepeatedBatches.AddedByBatch` | services/api/src/correlis_api/ingestion.py:218-227 | A batch adds to the log exactly the items it created. |
| `RepeatedBatches.LaterItemTakesTheKey` | services/api/src/correlis_api/ingestion.py:228-239 | An input whose conflict changes its kind, because a later item of the batch takes the key. |
| `RepeatedBatches.LaterItemContradictsEarlier` | services/api/src/correlis_api/ingestion.py:228-239 | An input whose conflict changes its record, because a later item contradicts an earlier reference. |
| `RepeatedBatches.SameRecordContradicted` | services/api/src/correlis_api/ingestion.py:228-239 | An input whose earlier reference is newly contradicted and whose answer is nevertheless the same, since the record is. |
| `ObservationLog.PutRefinesIngest` | packages/correlis-store/src/correlis_store/repository.py:60-75 | Every write is one of the system's ingest steps or nothing. |
| `Ingestion.IngestBatch` | services/api/src/correlis_api/ingestion.py:192-281 | Refused batches name the first offending item and write nothing; otherwise the items are written in order, results and counts are those of the log, and a failure stops the batch keeping what was written. |
| `Ingestion.CheckRead` | services/api/src/correlis_api/ingestion.py:68-91 | An item is admitted exactly if it has the collector's tenant and source and its edge obeys the ontology; otherwise the first of these it fails is reported. |
| `Ingestion.IngestedEdgesValid` | services/api/src/correlis_api/ingestion.py:210-217 | No stored edge can break the ontology the batch was checked against. |
| `StoreHistory.AlwaysRepresents` | packages/correlis-store/src/correlis_store/repository.py:60-146 | After any history of writes from an empty store the entries are exactly 1 to the last sequence in bijection with the observations, which are stored with their evidence unchanged. |
| `StoreHistory.LogsAreReachable` | packages/correlis-store/src/correlis_store/repository.py:60-75 | Every log the store can hold is the log of a run of the whole system. |
| `StoreHistory.FailsIffRepeated` | packages/correlis-store/src/correlis_store/repository.py:60-75 | After any history a write fails on both attempts if and only if it is new, contradicts nothing and repeats an evidence id. |
| `StoreHistory.RepeatedIdFails` | packages/correlis-store/src/correlis_store/repository.py:131-138 | Such an input. |
| `StoreHistory.ListedFromLog` | packages/correlis-store/src/correlis_store/repository.py:356-369 | The rows a listing selects are those of the log's matching observations. |
| `StoreHistory.EmptyIdStopsWalk` | packages/correlis-store/src/correlis_store/repository.py:383-395 | A store of two observations on which following the anchors fails. |
| `ObservationListing.ListPage` | packages/correlis-store/src/correlis_store/repository.py:343-395 | A page is exactly the next matching observations in descending (event time, id), with has_more and the next anchor; an anchor cannot be made for an empty id. |
| `ObservationListing.Walk` | packages/correlis-store/src/correlis_store/repository.py:343-395 | Following the anchors visits every matching observation once, newest first, for every page size, if and only if no page boundary falls on an observation with an empty id. |
| `ObservationListing.VisitedRead` | packages/correlis-store/src/correlis_store/repository.py:356-382 | A complete visit holds exactly the tenant's observations from the source that pass the filter, newest first. |
| `Ordering.StringOrder` | packages/correlis-store/src/correlis_store/repository.py:370-382 | The order of ids: a proper prefix comes first, and otherwise the smaller character at the first difference. |
| `ObservationListing.PrecedesOrder` | packages/correlis-store/src/correlis_store/repository.py:370-382 | The page order is a strict total order. |
| `ObservationStream.Scan` | packages/correlis-store/src/correlis_store/repository.py:224-322 | On arbitrary tables, a returned page holds every in-scope entry up to its next position with no entry missing before it, says whether that position is the last, and comes only from tables whose last position is the high watermark; a cursor error is exactly a bad argument or a cursor past such tables; on a complete log only a cursor ahead of it fails and the page is full. |
| `ObservationStream.ScopedExact` | packages/correlis-store/src/correlis_store/repository.py:277-322 | What is delivered between two positions is exactly the in-scope log entries there, in order, once each. |
| `ObservationStream.ScopedRead` | packages/correlis-store/src/correlis_store/repository.py:277-290 | On arbitrary tables, what a scan collects is exactly the entries there with the tenant and the source. |
| `ObservationStream.DeliveredRead` | services/api/src/correlis_api/observation_stream_runtime.py:179-216 | What a faithful stream has delivered, in order and once each, is exactly the log's entries after the start and up to the position with its tenant and its source. |
| `ObservationStream.EventStream.constructor` | services/api/src/correlis_api/observation_stream_runtime.py:121-141 | A stream starts with a ready frame at its starting position. |
| `ObservationStream.EventStream.Revalidate` | services/api/src/correlis_api/observation_stream_runtime.py:80-119 | An inactive or unverifiable collector ends the stream with one closing frame. |
| `ObservationStream.EventStream.EmitObservations` | services/api/src/correlis_api/observation_stream_runtime.py:179-201 | Each observation is emitted once with its own position as cursor; wherever authorisation ends the loop, the stream is faithful. |
| `ObservationStream.EventStream.EmitPage` | services/api/src/correlis_api/observation_stream_runtime.py:179-225 | The frames of a page: its observations, a checkpoint exactly if the page reaches past the last of them, a heartbeat exactly if one is due. |
| `ObservationStream.EventStream.Turn` | services/api/src/correlis_api/observation_stream_runtime.py:142-226 | One turn against the log as it now is: what has been delivered is exactly the in-scope entries up to the position, which is the last cursor sent, and likewise at every earlier cursor; an undisturbed turn emits exactly the frames of one whole page. |
| `ObservationStream.EventStream.Follow` | services/api/src/correlis_api/observation_stream_runtime.py:121-226 | A whole run of turns over a growing log: whenever it ends, what was delivered is exactly the in-scope entries between the start and the last cursor, and an undisturbed run has emitted exactly the frames of its pages. |
| `ObservationStream.EventuallyPassed` | services/api/src/correlis_api/observation_stream_runtime.py:142-226 | Whatever the log held is passed after enough undisturbed turns, however fast it grows. |
| `ObservationStream.FaithfulGrows` | services/api/src/correlis_api/observation_stream_runtime.py:142-157 | Appends between turns keep the stream faithful. |
| `ObservationStream.ResumeLosesNothing` | services/api/src/correlis_api/observation_stream_runtime.py:181-216 | Stopping anywhere and resuming at any cursor delivers, in total, exactly the in-scope entries once each. |
| `Sse.EncodeEvent` | services/api/src/correlis_api/sse.py:13-31 | The encoded text, and rejection iff a field is unsafe or the retry negative. |
| `Sse.ParsedIsCarried` | services/api/src/correlis_api/sse.py:13-36 | Parsing everything written by sections 9.2.5 and 9.2.6 of the WHATWG HTML Standard gives each event with its name, last event id and retry, comments none, payloads as their lines joined by newlines. |
| `Sse.PayloadSurvives` | services/api/src/correlis_api/sse.py:26-28 | A JSON payload survives the framing if and only if it has no raw U+0085, U+2028 or U+2029. |
| `Sse.RoundTrip` | services/api/src/correlis_api/sse.py:13-36 | For any accepted events and comments the client receives exactly what was sent if and only if no payload has one of those characters. |
| `Sse.SeparatorIsLost` | services/api/src/correlis_api/sse.py:27-28 | Each of the ten separators, and no other character, reaches the client as a newline when it stands inside a payload. |
| `Identifiers.MaterialRead` | packages/correlis-schema/src/correlis_schema/identifiers.py:8-26 | The hashed text of what each rule derives and of the statement it starts from, with its literal names. |
| `Identifiers.DeterminedIffOneSplit` | packages/correlis-schema/src/correlis_schema/identifiers.py:8-26 | Within a tenant, the scope of every table it keys, no other relationship shares an identifier's hashed text if and only if its source, type and target text can be split at a type name in one place only. |
| `Identifiers.MaterialInjective` | packages/correlis-schema/src/correlis_schema/identifiers.py:8-26 | Separator-free tenants and sources are enough, across tenants and whatever the targets. |
| `Identifiers.MaterialCollides` | packages/correlis-schema/src/correlis_schema/identifiers.py:16-25 | For every type, two different relationships of one tenant with one hashed text. |
| `Identifiers.CollisionRefused` | packages/correlis-store/src/correlis_store/relationship_projection.py:118-202 | A stored row never has the identity of another relationship of its tenant, so a colliding upsert is refused rather than merged. |

## Left out

- Entity observation roles, entity evidence and identity claims: they are upserted by the same bounds
  rule as relationship evidence and nothing downstream reads them.
- Database sessions, SQL text, locking (`nowait`, busy projectors) and isolation: a batch is one atomic
  step and a put is one transaction.
- Concurrent puts: the race the single retry of `Put` exists for needs a second session between its two
  attempts.
- Projector and correlation registration, and the rule that a relationship graph has at most one
  correlation configuration: one configured pipeline is modelled.
- Configuration, manifest and policy comparison in the handlers, and identity fields that repeat the
  configured versions.
- Hashing, JSON encoding and decoding, UTF-8, cursor encryption: identifiers are injective, a stream
  cursor is a bare position, a payload is its JSON text.
- Time zones: event times are integers, so the checks for naive times do not appear.
- Wall-clock columns, titles, summaries, uncertainty text and log messages.
- Timing of the stream: clock, heartbeat and authorisation outcomes are choices of the environment, and
  its generic error path for failures outside the scan ends it without a modelled frame.
- `read_sequence_page`, the getters and the read-only repositories: they copy rows.
- Request limits other than the batch size, routes, credentials, the command line and the in-memory demo
  scene.
- Provenance classes other than observed and deterministic: the relationship store rejects them.
- AttackSceneProjection.Handle: abandons the stored scenes as they are when a merge fails; undoing them is
  the runner's rollback.
- LogStore.Store.Attempt: leaves its tables unspecified on an error; `Put` rolls them back.
- EntityProjection.EntityStore.Handle: leaves its rows unspecified when it rejects an item; undoing them
  is the runner's savepoint.
- CoreOntology.OntologyDecides: speaks of COR-SEQ-001 and COR-SEQ-002; for COR-SEQ-003 the ontology check
  can decide either way, since a compromised entity need not be of a type that moves laterally.
- Guarantees.EveryRunCatchesUp: assumes that no projector is paused or failed, which only an operator or a
  retry can change.
