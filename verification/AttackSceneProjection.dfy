/** The attack-scene projector: at every item it re-plans each of the tenant's roots and merges the
    plans into stored rows, raising when stored membership is not contained in the new plan. */
module AttackSceneProjection {
  import opened Domain
  import opened Spans
  import opened Paging
  import opened RelationshipGraph
  import opened AttackScenePlanner
  import opened AttackSceneSearch
  import opened AttackSceneFacts
  import EntityProjection

  datatype TransitionKey = TransitionKey(seqNo: nat, obsId: string)

  datatype TransitionRow = TransitionRow(from: IncidentState, to: IncidentState, reason: Reason)

  datatype StoredScene = StoredScene(
    state: IncidentState,
    span: Span,
    relationships: map<RelationshipId, Span>,
    entities: map<string, Span>,
    observations: map<string, Point>,
    transitions: map<TransitionKey, TransitionRow>
  )

  // A scene's identifier is derived from its root's, injectively.
  type Scenes = map<RelationshipId, StoredScene>

  const PAGE_SIZE := 500

  function StateOrder(s: IncidentState): nat {
    match s
    case PotentialState => 0
    case ObservedState => 1
    case ConfirmedState => 2
    case ContainedState => 3
    case ClosedState => 4
  }

  function MergedState(current: IncidentState, planned: IncidentState): IncidentState {
    if StateOrder(planned) > StateOrder(current) && current != ContainedState && current != ClosedState
    then planned else current
  }

  function KeyOfTransition(t: Transition): TransitionKey {
    TransitionKey(t.seqNo, t.obsId)
  }

  function RowOfTransition(t: Transition): TransitionRow {
    TransitionRow(t.from, t.to, t.reason)
  }

  // The rows a transition list leaves when written beside the stored ones; None when a stored row
  // differs, or when the list itself repeats a key the store does not hold.
  function WriteTransitions(rows: map<TransitionKey, TransitionRow>, ts: seq<Transition>)
    : Option<map<TransitionKey, TransitionRow>>
  {
    if ts == [] then Some(rows)
    else match WriteTransitions(rows, ts[..|ts| - 1])
      case None => None
      case Some(m) =>
        var t := ts[|ts| - 1];
        if KeyOfTransition(t) !in m then Some(m[KeyOfTransition(t) := RowOfTransition(t)])
        else if KeyOfTransition(t) in rows && rows[KeyOfTransition(t)] == RowOfTransition(t) then Some(m)
        else None
  }

  const EMPTY_SCENE := StoredScene(PotentialState, Span(0, 0, 0, 0), map[], map[], map[], map[])

  // What stored membership must satisfy for a plan to be merged into it.
  predicate Contained(s: StoredScene, p: Plan) {
    && s.relationships.Keys <= p.relationships.Keys
    && s.entities.Keys <= p.entities.Keys
    && (forall o | o in s.observations :: o in p.observations && p.observations[o] == s.observations[o])
    && WriteTransitions(s.transitions, p.transitions).Some?
  }

  /** _persist_plan; None is any of the mismatches it raises. */
  function Merge(stored: Option<StoredScene>, p: Plan): Option<StoredScene> {
    var s := if stored.Some? then stored.value else EMPTY_SCENE;
    if !Contained(s, p) then None
    else Some(StoredScene(
      if stored.Some? then MergedState(s.state, p.state) else p.state,
      p.span, p.relationships, p.entities, p.observations,
      WriteTransitions(s.transitions, p.transitions).value))
  }

  /* ----- The merges ----- */

  // _persist_relationships and _persist_entities: insert what is new, overwrite changed bounds.
  method PersistSpans<K(==)>(existing: map<K, Span>, planned: map<K, Span>) returns (result: Option<map<K, Span>>)
    ensures result.Some? <==> existing.Keys <= planned.Keys
    ensures result.Some? ==> result.value == planned
  {
    if !(existing.Keys <= planned.Keys) {
      return None;
    }
    var rows := existing;
    var rest := planned.Keys;
    while rest != {}
      invariant rest <= planned.Keys
      invariant rows.Keys == existing.Keys + (planned.Keys - rest)
      invariant forall k | k in planned.Keys - rest :: rows[k] == planned[k]
      decreases rest
    {
      var k :| k in rest;
      if k !in rows {
        rows := rows[k := planned[k]];
      } else if rows[k] != planned[k] {
        rows := rows[k := planned[k]];
      }
      rest := rest - {k};
    }
    assert rows.Keys == planned.Keys;
    assert rows == planned;
    result := Some(rows);
  }

  method PersistObservations(existing: map<string, Point>, planned: map<string, Point>)
    returns (result: Option<map<string, Point>>)
    ensures result.Some? <==> forall o | o in existing :: o in planned && planned[o] == existing[o]
    ensures result.Some? ==> result.value == planned
  {
    if !(existing.Keys <= planned.Keys) {
      return None;
    }
    var rows := existing;
    var rest := planned.Keys;
    while rest != {}
      invariant rest <= planned.Keys
      invariant rows.Keys == existing.Keys + (planned.Keys - rest)
      invariant forall o | o in planned.Keys - rest :: rows[o] == planned[o]
      invariant forall o | o in existing :: rows[o] == existing[o]
      decreases rest
    {
      var o :| o in rest;
      if o !in existing {
        rows := rows[o := planned[o]];
      } else if existing[o] != planned[o] {
        return None;
      }
      rest := rest - {o};
    }
    assert rows.Keys == planned.Keys;
    assert rows == planned;
    result := Some(rows);
  }

  lemma {:induction false} MismatchPersists(rows: map<TransitionKey, TransitionRow>, ts: seq<Transition>, i: nat)
    requires i <= |ts| && WriteTransitions(rows, ts[..i]).None?
    ensures WriteTransitions(rows, ts).None?
    decreases |ts|
  {
    if i == |ts| {
      assert ts[..i] == ts;
    } else {
      assert ts[..|ts| - 1][..i] == ts[..i];
      MismatchPersists(rows, ts[..|ts| - 1], i);
    }
  }

  method PersistTransitions(existing: map<TransitionKey, TransitionRow>, planned: seq<Transition>)
    returns (result: Option<map<TransitionKey, TransitionRow>>)
    ensures result == WriteTransitions(existing, planned)
  {
    var rows := existing;
    var i := 0;
    while i < |planned|
      invariant 0 <= i <= |planned|
      invariant WriteTransitions(existing, planned[..i]) == Some(rows)
    {
      var t := planned[i];
      assert planned[..i + 1][..i] == planned[..i];
      if KeyOfTransition(t) !in rows {
        rows := rows[KeyOfTransition(t) := RowOfTransition(t)];
      } else if KeyOfTransition(t) !in existing || existing[KeyOfTransition(t)] != RowOfTransition(t) {
        MismatchPersists(existing, planned, i + 1);
        return None;
      }
      i := i + 1;
    }
    assert planned[..i] == planned;
    result := Some(rows);
  }

  class SceneStore {
    var scenes: Scenes

    constructor ()
      ensures scenes == map[]
    {
      scenes := map[];
    }

    function Lookup(root: RelationshipId): Option<StoredScene>
      reads this
    {
      if root in scenes then Some(scenes[root]) else None
    }

    lemma LookupIs(root: RelationshipId)
      ensures Lookup(root) == LookupIn(scenes, root)
    {
    }

    method PersistPlan(p: Plan) returns (ok: bool)
      modifies this
      ensures ok <==> Merge(old(Lookup(p.root)), p).Some?
      ensures scenes == if ok then old(scenes)[p.root := Merge(old(Lookup(p.root)), p).value] else old(scenes)
    {
      var s := EMPTY_SCENE;
      var state := p.state;
      if p.root in scenes {
        s := scenes[p.root];
        state := s.state;
        if StateOrder(p.state) > StateOrder(state) && state != ContainedState && state != ClosedState {
          state := p.state;
        }
      }
      var relationships := PersistSpans(s.relationships, p.relationships);
      if relationships.None? {
        return false;
      }
      var entities := PersistSpans(s.entities, p.entities);
      if entities.None? {
        return false;
      }
      var observations := PersistObservations(s.observations, p.observations);
      if observations.None? {
        return false;
      }
      var transitions := PersistTransitions(s.transitions, p.transitions);
      if transitions.None? {
        return false;
      }
      scenes := scenes[p.root := StoredScene(state, p.span, relationships.value, entities.value, observations.value,
                                             transitions.value)];
      ok := true;
    }
  }

  /* ----- The handler ----- */

  // The roots listed for a tenant at a boundary.
  function Roots(g: Graph, tenant: string, b: nat): set<RelationshipId> {
    set k | k in g.derivations && k.rid.tenant == tenant && IsRoot(g, k.rid, b) :: k.rid
  }

  ghost function PlanOf(g: Graph, root: RelationshipId, b: nat): Plan
    requires exists p :: IsPlan(g, root, b, p)
  {
    var p :| IsPlan(g, root, b, p);
    p
  }

  function LookupIn(scenes: Scenes, root: RelationshipId): Option<StoredScene> {
    if root in scenes then Some(scenes[root]) else None
  }

  // The stored scene of a root after merging its plan; None when there is no plan or it mismatches.
  ghost function Remerged(g: Graph, scenes: Scenes, b: nat, root: RelationshipId): Option<StoredScene> {
    if exists p :: IsPlan(g, root, b, p) then Merge(LookupIn(scenes, root), PlanOf(g, root, b)) else None
  }

  // A root's scene can be planned and merged.
  ghost predicate Mergeable(g: Graph, ents: EntityProjection.Entities, scenes: Scenes, b: nat, root: RelationshipId) {
    Plannable(g, ents, root, b) && Remerged(g, scenes, b, root).Some?
  }

  // The stored scenes once the given roots have been merged.
  ghost function MergedScenes(g: Graph, scenes: Scenes, b: nat, roots: set<RelationshipId>): Scenes
    requires forall root | root in roots :: Remerged(g, scenes, b, root).Some?
  {
    map root | root in scenes.Keys + roots ::
      if root in roots then Remerged(g, scenes, b, root).value else scenes[root]
  }

  /** The handler's effect: refuse until the dependencies are ready, raise if any root fails to plan
      or merge, and otherwise leave every root of the item's tenant merged with its plan. */
  ghost function Step(g: Graph, ents: EntityProjection.Entities, deps: Dependencies, scenes: Scenes, item: Item)
    : Attempt<Scenes>
  {
    var roots := Roots(g, item.obs.tenant, item.seqNo);
    if !Ready(deps, item.seqNo) then Aborted
    else if exists root :: root in roots && !Mergeable(g, ents, scenes, item.seqNo, root) then Aborted
    else Done(MergedScenes(g, scenes, item.seqNo, roots))
  }

  lemma PlanIs(g: Graph, root: RelationshipId, b: nat, p: Plan)
    requires IsPlan(g, root, b, p)
    ensures PlanOf(g, root, b) == p
  {
    hide IsPlan;
    PlanUnique(g, root, b, p, PlanOf(g, root, b));
  }

  // The plans collected so far are those of the roots visited so far.
  ghost predicate Collected(g: Graph, b: nat, seen: seq<RelationshipId>, plans: seq<Plan>) {
    |plans| == |seen| && forall i | 0 <= i < |seen| :: plans[i].root == seen[i] && IsPlan(g, seen[i], b, plans[i])
  }

  method PlanPage(g: Graph, ents: EntityProjection.Entities, deps: Dependencies, b: nat, page: seq<RelationshipId>,
                  ghost seen: seq<RelationshipId>, plans: seq<Plan>)
    returns (ok: bool, more: seq<Plan>)
    requires Ready(deps, b) && Collected(g, b, seen, plans)
    requires forall root | root in page :: IsRoot(g, root, b)
    ensures ok <==> forall root | root in page :: Plannable(g, ents, root, b)
    ensures ok ==> Collected(g, b, seen + page, more)
  {
    hide IsPlan, Plannable, IsRoot;
    more := plans;
    for i := 0 to |page|
      invariant Collected(g, b, seen + page[..i], more)
      invariant forall j | 0 <= j < i :: Plannable(g, ents, page[j], b)
    {
      var r := PlanScene(g, ents, deps, page[i], b);
      if !r.Planned? {
        return false, [];
      }
      RootOfPlan(g, page[i], b, r.plan);
      more := more + [r.plan];
      assert seen + page[..i + 1] == (seen + page[..i]) + [page[i]];
    }
    assert page[..|page|] == page;
    ok := true;
  }

  lemma RootOfPlan(g: Graph, root: RelationshipId, b: nat, p: Plan)
    requires IsPlan(g, root, b, p)
    ensures p.root == root
  {
  }

  /** The root paging loop: every root of the tenant is listed and planned exactly once. */
  method CollectPlans(g: Graph, ents: EntityProjection.Entities, deps: Dependencies, tenant: string, b: nat,
                      less: (RelationshipId, RelationshipId) -> bool)
    returns (ok: bool, plans: seq<Plan>, ghost seen: seq<RelationshipId>)
    requires Ready(deps, b) && StrictTotalOrder(less)
    ensures ok <==> forall root | root in Roots(g, tenant, b) :: Plannable(g, ents, root, b)
    ensures ok ==> Collected(g, b, seen, plans) && Ascending(seen, less)
    ensures ok ==> forall root :: root in seen <==> root in Roots(g, tenant, b)
  {
    hide IsPlan, Plannable, IsRoot;
    var roots := Roots(g, tenant, b);
    var after: Option<RelationshipId> := None;
    plans, seen := [], [];
    while true
      invariant Seen(roots, less, after, seen) && Collected(g, b, seen, plans)
      invariant forall root | root in seen :: Plannable(g, ents, root, b)
      decreases roots - set root | root in seen
    {
      var page := Query(roots, less, after, PAGE_SIZE);
      var sound, more := PlanPage(g, ents, deps, b, page, seen, plans);
      if !sound {
        return false, [], [];
      }
      PageExtends(roots, less, after, PAGE_SIZE, seen, page);
      plans := more;
      if |page| < PAGE_SIZE {
        seen := seen + page;
        break;
      }
      PageIsNew(roots, less, after, seen, page);
      seen := seen + page;
      after := Some(page[|page| - 1]);
    }
    ok := true;
  }

  lemma PageIsNew(roots: set<RelationshipId>, less: (RelationshipId, RelationshipId) -> bool,
                  after: Option<RelationshipId>, seen: seq<RelationshipId>, page: seq<RelationshipId>)
    requires StrictTotalOrder(less) && Seen(roots, less, after, seen)
    requires IsPage(roots, less, after, PAGE_SIZE, page) && page != []
    ensures (roots - set root | root in seen + page) < (roots - set root | root in seen)
  {
    var x := page[0];
    assert x in roots && After(less, after, x);
    forall y | y in seen
      ensures less(y, x)
    {
      var i :| 0 <= i < |seen| && seen[i] == y;
      if i < |seen| - 1 {
        Transitive(less, y, after.value, x);
      }
    }
    assert !less(x, x);
    assert x in roots - set root | root in seen;
    assert x !in roots - set root | root in seen + page;
  }

  lemma NotYetSeen(seen: seq<RelationshipId>, less: (RelationshipId, RelationshipId) -> bool, i: nat)
    requires StrictTotalOrder(less) && Ascending(seen, less) && i < |seen|
    ensures seen[i] !in seen[..i]
  {
  }

  method PersistAll(store: SceneStore, g: Graph, b: nat, plans: seq<Plan>, ghost seen: seq<RelationshipId>,
                    ghost less: (RelationshipId, RelationshipId) -> bool)
    returns (ok: bool)
    requires StrictTotalOrder(less) && Ascending(seen, less) && Collected(g, b, seen, plans)
    modifies store
    ensures ok <==> forall root | root in seen :: Remerged(g, old(store.scenes), b, root).Some?
    ensures ok ==> store.scenes == MergedScenes(g, old(store.scenes), b, set root | root in seen)
  {
    hide Remerged, MergedScenes, IsPlan, Merge, LookupIn;
    ghost var start := store.scenes;
    ghost var done: set<RelationshipId> := {};
    NoneMerged(g, start, b);
    for i := 0 to |plans|
      invariant done == set root | root in seen[..i]
      invariant forall root | root in done :: Remerged(g, start, b, root).Some?
      invariant store.scenes == MergedScenes(g, start, b, done)
    {
      ghost var root := seen[i];
      NotYetSeen(seen, less, i);
      MergedKeepsOthers(g, start, b, done, root);
      store.LookupIs(root);
      var merged := store.PersistPlan(plans[i]);
      RemergedIs(g, start, b, root, plans[i]);
      if !merged {
        return false;
      }
      MergedStep(g, start, b, done, root);
      done := done + {root};
      assert seen[..i + 1] == seen[..i] + [seen[i]];
    }
    assert seen[..|plans|] == seen;
    ok := true;
  }

  lemma NoneMerged(g: Graph, scenes: Scenes, b: nat)
    ensures MergedScenes(g, scenes, b, {}) == scenes
  {
  }

  lemma MergedKeepsOthers(g: Graph, scenes: Scenes, b: nat, done: set<RelationshipId>, root: RelationshipId)
    requires forall r | r in done :: Remerged(g, scenes, b, r).Some?
    requires root !in done
    ensures LookupIn(MergedScenes(g, scenes, b, done), root) == LookupIn(scenes, root)
  {
    hide Remerged;
  }

  lemma MergedStep(g: Graph, scenes: Scenes, b: nat, done: set<RelationshipId>, root: RelationshipId)
    requires forall r | r in done + {root} :: Remerged(g, scenes, b, r).Some?
    ensures MergedScenes(g, scenes, b, done + {root})
         == MergedScenes(g, scenes, b, done)[root := Remerged(g, scenes, b, root).value]
  {
    hide Remerged;
  }

  lemma RemergedIs(g: Graph, scenes: Scenes, b: nat, root: RelationshipId, p: Plan)
    requires IsPlan(g, root, b, p)
    ensures Remerged(g, scenes, b, root) == Merge(LookupIn(scenes, root), p)
  {
    hide IsPlan;
    PlanIs(g, root, b, p);
  }

  method Handle(store: SceneStore, g: Graph, ents: EntityProjection.Entities, deps: Dependencies, item: Item,
                less: (RelationshipId, RelationshipId) -> bool)
    returns (verdict: Verdict)
    requires StrictTotalOrder(less)
    modifies store
    ensures match Step(g, ents, deps, old(store.scenes), item)
            case Done(_) => verdict == Handled
            case Poison(code) => verdict == Rejected(code)
            case Aborted => verdict == Raised
    ensures verdict.Handled? ==> store.scenes == Step(g, ents, deps, old(store.scenes), item).state
  {
    hide IsPlan, Plannable, Remerged, StrictTotalOrder, Ascending, Roots, MergedScenes;
    var b := item.seqNo;
    if !Ready(deps, b) {
      return Raised;
    }
    var planned, plans, seen := CollectPlans(g, ents, deps, item.obs.tenant, b, less);
    if !planned {
      assert exists root :: root in Roots(g, item.obs.tenant, b) && !Mergeable(g, ents, store.scenes, b, root);
      return Raised;
    }
    ghost var start := store.scenes;
    var merged := PersistAll(store, g, b, plans, seen, less);
    ghost var roots := Roots(g, item.obs.tenant, b);
    if !merged {
      assert exists root :: root in roots && !Mergeable(g, ents, start, b, root);
      return Raised;
    }
    assert forall root | root in roots :: Mergeable(g, ents, start, b, root);
    assert roots == set root | root in seen;
    verdict := Handled;
  }
}
