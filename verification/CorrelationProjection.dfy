/** The correlation projector: bounded graph queries, rule evaluation and the upserts that write
    derived relationships and their lineage into the shared graph. */
module CorrelationProjection {
  import opened Domain
  import opened RelationshipGraph
  import opened CorrelationRules

  // A row of the observation-evidence table.
  datatype EvidenceLink = EvidenceLink(tenant: string, obsId: string, evidenceId: string)

  datatype Candidate = Candidate(
    rule: RuleId,
    rid: RelationshipId,
    sourceType: EntityType,
    targetType: EntityType,
    supports: set<RelationshipId>,
    triggerEvidence: set<string>,
    supportEvidence: set<string>
  )

  datatype Evaluation = NoMatch | Match(candidate: Candidate) | Conflict

  // The stored columns a support query filters on.
  predicate RowSupports(rule: RuleId, o: Observation, row: RelationshipRow)
    requires Triggers(rule, o)
  {
    match rule
    case CorSeq001 =>
      row.rtype == HasVulnerability && row.provenance == Observed && row.sourceId == o.obj.value.id
    case CorSeq002 =>
      row.rtype == Exploited && row.sourceId == o.attackSource.value && row.targetId == o.obj.value.id
    case CorSeq003 =>
      row.rtype == Compromised && row.targetId == o.subject.id
  }

  // find_prior_*: relationships of the right shape with lineage strictly before the trigger.
  function PriorFacts(g: Graph, item: Item, rule: RuleId): (r: set<RelationshipId>)
    requires Triggers(rule, item.obs)
    ensures r <= g.relationships.Keys
  {
    set k | k in g.lineage && g.lineage[k].seqNo < item.seqNo && k.rid in g.relationships
            && k.rid.tenant == item.obs.tenant && RowSupports(rule, item.obs, g.relationships[k.rid]) :: k.rid
  }

  // evidence_for_prior_relationships
  function PriorEvidence(g: Graph, links: set<EvidenceLink>, item: Item, rids: set<RelationshipId>): set<string> {
    set k, l | k in g.lineage && k.rid in rids && g.lineage[k].seqNo < item.seqNo
               && l in links && l.tenant == item.obs.tenant && l.obsId == k.obsId :: l.evidenceId
  }

  predicate SourceTypesAgree(g: Graph, rids: set<RelationshipId>)
    requires rids <= g.relationships.Keys
  {
    forall a, b | a in rids && b in rids :: g.relationships[a].sourceType == g.relationships[b].sourceType
  }

  predicate TargetTypesAre(g: Graph, rids: set<RelationshipId>, t: EntityType)
    requires rids <= g.relationships.Keys
  {
    forall a | a in rids :: g.relationships[a].targetType == t
  }

  function CommonSourceType(g: Graph, rids: set<RelationshipId>): (t: EntityType)
    requires rids != {} && rids <= g.relationships.Keys && SourceTypesAgree(g, rids)
    ensures forall a | a in rids :: g.relationships[a].sourceType == t
  {
    var rid :| rid in rids;
    var t: EntityType :| exists a :: a in rids && g.relationships[a].sourceType == t;
    t
  }

  function MakeCandidate(g: Graph, links: set<EvidenceLink>, item: Item, rule: RuleId, sourceType: EntityType,
                         facts: set<RelationshipId>): Candidate
    requires Triggers(rule, item.obs)
  {
    Candidate(rule, DerivedId(rule, item.obs), sourceType, item.obs.obj.value.etype, facts,
              EvidenceIds(item.obs), PriorEvidence(g, links, item, facts))
  }

  // evaluate_cor_seq_001/002/003
  function Evaluate(ont: Ontology, g: Graph, links: set<EvidenceLink>, item: Item, rule: RuleId): Evaluation {
    var o := item.obs;
    if !Triggers(rule, o) then NoMatch else
      var facts := PriorFacts(g, item, rule);
      var t := o.obj.value.etype;
      match rule
      case CorSeq001 =>
        if !ValidEdge(ont, Exploited, o.subject.etype, t) || facts == {} then NoMatch
        else Match(MakeCandidate(g, links, item, rule, o.subject.etype, facts))
      case CorSeq002 =>
        if facts == {} then NoMatch
        else if !SourceTypesAgree(g, facts) || !TargetTypesAre(g, facts, t) then Conflict
        else var s := CommonSourceType(g, facts);
        if !ValidEdge(ont, Compromised, s, t) then NoMatch
        else Match(MakeCandidate(g, links, item, rule, s, facts))
      case CorSeq003 =>
        if facts == {} then NoMatch
        else if !TargetTypesAre(g, facts, o.subject.etype) then Conflict
        else if !ValidEdge(ont, MovedLaterallyTo, o.subject.etype, t) then NoMatch
        else Match(MakeCandidate(g, links, item, rule, o.subject.etype, facts))
  }

  // evaluate_correlation_rules: every rule reads the graph as it was before the item.
  function EvaluateAll(ont: Ontology, g: Graph, links: set<EvidenceLink>, item: Item, rules: seq<RuleId>): Option<seq<Candidate>> {
    if rules == [] then Some([])
    else match EvaluateAll(ont, g, links, item, rules[..|rules| - 1])
      case None => None
      case Some(cs) =>
        match Evaluate(ont, g, links, item, rules[|rules| - 1])
        case Conflict => None
        case NoMatch => Some(cs)
        case Match(c) => Some(cs + [c])
  }

  function EntryOf(item: Item, c: Candidate): Entry {
    Entry(c.rid, item.seqNo, item.obs, c.sourceType, c.targetType, ConfidenceOf(c.rule),
          c.triggerEvidence + c.supportEvidence)
  }

  function RowOf(item: Item, rule: RuleId): DerivationRow {
    DerivationRow(rule, item.seqNo, item.obs.eventTime, ConfidenceOf(rule))
  }

  function SupportRows(key: LineageKey, rids: set<RelationshipId>): set<SupportRow> {
    set s | s in rids :: SupportRow(key, s)
  }

  function RoleRows(key: LineageKey, ids: set<string>, role: EvidenceRole): set<RoleRow> {
    set x | x in ids :: RoleRow(key, x, role)
  }

  function WriteLineage(g: Graph, item: Item, c: Candidate): Graph {
    var key := KeyOf(EntryOf(item, c));
    g.(derivations := g.derivations[key := RowOf(item, c.rule)],
       supports := g.supports + SupportRows(key, c.supports),
       roles := g.roles + RoleRows(key, c.triggerEvidence, TriggerRole) + RoleRows(key, c.supportEvidence, SupportRole))
  }

  // _persist_candidate; None stands for each invariant error it can raise.
  function Persist(ont: Ontology, g: Graph, item: Item, c: Candidate): Option<Graph> {
    var key := KeyOf(EntryOf(item, c));
    if !ValidEdge(ont, c.rid.rtype, c.sourceType, c.targetType) then None
    else match Record(g, EntryOf(item, c))
      case None => None
      case Some(g1) =>
        if key in g1.derivations && g1.derivations[key] != RowOf(item, c.rule) then None
        else if c.rid in c.supports || !(c.supports <= g1.relationships.Keys) then None
        else Some(WriteLineage(g1, item, c))
  }

  /** On arbitrary tables persisting raises exactly when the registry refuses the edge, the stored relationship
      has another identity or endpoint type, the stored derivation differs, or a support is the derived
      relationship itself or missing. */
  lemma PersistFails(ont: Ontology, g: Graph, item: Item, c: Candidate)
    ensures var k := LineageKey(c.rid, item.obs.id);
      Persist(ont, g, item, c).None? <==>
      || !(c.rid.rtype in ont.sources && c.sourceType in ont.sources[c.rid.rtype]
           && c.rid.rtype in ont.targets && c.targetType in ont.targets[c.rid.rtype])
      || (c.rid in g.relationships &&
          var row := g.relationships[c.rid];
          !(row.rtype == c.rid.rtype && row.provenance == c.rid.provenance && row.rule == c.rid.rule
            && row.sourceId == c.rid.source && row.sourceType == c.sourceType
            && row.targetId == c.rid.target && row.targetType == c.targetType))
      || (k in g.derivations &&
          !(g.derivations[k].rule == c.rule && g.derivations[k].triggerSeq == item.seqNo && g.derivations[k].time == item.obs.eventTime
            && g.derivations[k].confidence == ConfidenceOf(c.rule)))
      || (exists sup :: sup in c.supports && (sup == c.rid || sup !in g.relationships))
  {
    hide ConfidenceOf;
  }

  function PersistAll(ont: Ontology, g: Graph, item: Item, cs: seq<Candidate>): Option<Graph> {
    if cs == [] then Some(g)
    else match PersistAll(ont, g, item, cs[..|cs| - 1])
      case None => None
      case Some(g1) => Persist(ont, g1, item, cs[|cs| - 1])
  }

  // The handler, including its relationship-checkpoint gate.
  function Step(cfg: Config, g: Graph, links: set<EvidenceLink>, relationshipCheckpoint: nat, item: Item): Attempt<Graph> {
    if relationshipCheckpoint < item.seqNo then Aborted
    else match EvaluateAll(cfg.ruleOntology, g, links, item, Rules(cfg.ruleset))
      case None => Aborted
      case Some(cs) =>
        match PersistAll(cfg.ontology, g, item, cs)
        case None => Aborted
        case Some(g') => Done(g')
  }

  /* ----- The handler on the stored tables ----- */

  method EvaluateRules(cfg: Config, store: GraphStore, links: set<EvidenceLink>, item: Item)
    returns (result: Option<seq<Candidate>>)
    ensures result == EvaluateAll(cfg.ruleOntology, store.Snapshot(), links, item, Rules(cfg.ruleset))
  {
    var g, rules := store.Snapshot(), Rules(cfg.ruleset);
    var candidates: seq<Candidate> := [];
    var i := 0;
    while i < |rules|
      invariant 0 <= i <= |rules|
      invariant EvaluateAll(cfg.ruleOntology, g, links, item, rules[..i]) == Some(candidates)
    {
      assert rules[..i + 1][..i] == rules[..i];
      match Evaluate(cfg.ruleOntology, g, links, item, rules[i]) {
        case Conflict =>
          ConflictPersists(cfg.ruleOntology, g, links, item, rules, i + 1);
          return None;
        case NoMatch =>
        case Match(c) =>
          candidates := candidates + [c];
      }
      i := i + 1;
    }
    assert rules[..i] == rules;
    result := Some(candidates);
  }

  lemma {:induction false} ConflictPersists(ont: Ontology, g: Graph, links: set<EvidenceLink>, item: Item, rules: seq<RuleId>, i: nat)
    requires i <= |rules| && EvaluateAll(ont, g, links, item, rules[..i]).None?
    ensures EvaluateAll(ont, g, links, item, rules).None?
    decreases |rules|
  {
    if i == |rules| {
      assert rules[..i] == rules;
    } else {
      var init := rules[..|rules| - 1];
      assert init[..i] == rules[..i];
      ConflictPersists(ont, g, links, item, init, i);
    }
  }

  method PersistCandidate(ont: Ontology, store: GraphStore, item: Item, c: Candidate) returns (ok: bool)
    modifies store
    ensures ok <==> Persist(ont, old(store.Snapshot()), item, c).Some?
    ensures ok ==> store.Snapshot() == Persist(ont, old(store.Snapshot()), item, c).value
  {
    if !ValidEdge(ont, c.rid.rtype, c.sourceType, c.targetType) {
      return false;
    }
    ok := store.RecordEntry(EntryOf(item, c));
    if !ok {
      return false;
    }
    var key := KeyOf(EntryOf(item, c));
    if key in store.derivations && store.derivations[key] != RowOf(item, c.rule) {
      return false;
    }
    if c.rid in c.supports || !(c.supports <= store.relationships.Keys) {
      return false;
    }
    store.derivations := store.derivations[key := RowOf(item, c.rule)];
    store.supports := store.supports + SupportRows(key, c.supports);
    store.roles := store.roles + RoleRows(key, c.triggerEvidence, TriggerRole)
                               + RoleRows(key, c.supportEvidence, SupportRole);
  }

  method Handle(cfg: Config, store: GraphStore, links: set<EvidenceLink>, relationshipCheckpoint: nat, item: Item)
    returns (verdict: Verdict)
    modifies store
    ensures match Step(cfg, old(store.Snapshot()), links, relationshipCheckpoint, item)
            case Done(_) => verdict == Handled
            case Poison(code) => verdict == Rejected(code)
            case Aborted => verdict == Raised
    ensures verdict.Handled? ==>
      store.Snapshot() == Step(cfg, old(store.Snapshot()), links, relationshipCheckpoint, item).state
  {
    hide Persist, EvaluateAll;
    if relationshipCheckpoint < item.seqNo {
      return Raised;
    }
    var evaluated := EvaluateRules(cfg, store, links, item);
    if evaluated.None? {
      return Raised;
    }
    var cs := evaluated.value;
    ghost var g := store.Snapshot();
    var i := 0;
    while i < |cs|
      invariant 0 <= i <= |cs|
      invariant PersistAll(cfg.ontology, g, item, cs[..i]) == Some(store.Snapshot())
    {
      assert cs[..i + 1][..i] == cs[..i];
      var ok := PersistCandidate(cfg.ontology, store, item, cs[i]);
      if !ok {
        FailurePersists(cfg.ontology, g, item, cs, i + 1);
        return Raised;
      }
      i := i + 1;
    }
    assert cs[..i] == cs;
    verdict := Handled;
  }

  lemma {:induction false} FailurePersists(ont: Ontology, g: Graph, item: Item, cs: seq<Candidate>, i: nat)
    requires i <= |cs| && PersistAll(ont, g, item, cs[..i]).None?
    ensures PersistAll(ont, g, item, cs).None?
    decreases |cs|
  {
    if i == |cs| {
      assert cs[..i] == cs;
    } else {
      var init := cs[..|cs| - 1];
      assert init[..i] == cs[..i];
      FailurePersists(ont, g, item, init, i);
    }
  }
}
