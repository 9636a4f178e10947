/** The built-in sequence rules, their rulesets and the shape of what each rule reads and derives. */
module CorrelationRules {
  import opened Domain

  datatype Ruleset = RulesetV1 | RulesetV2 | RulesetV3

  // The rules of a ruleset, in evaluation order.
  function Rules(v: Ruleset): seq<RuleId> {
    match v
    case RulesetV1 => [CorSeq001]
    case RulesetV2 => [CorSeq001, CorSeq002]
    case RulesetV3 => [CorSeq001, CorSeq002, CorSeq003]
  }

  // A registered correlation projection: its ruleset, the ontology its rules consult, and the registry
  // its handler, like the relationship projector's, checks every edge it writes against.
  datatype Config = Config(ruleOntology: Ontology, ontology: Ontology, ruleset: Ruleset)

  function Output(rule: RuleId): RelationshipType {
    match rule
    case CorSeq001 => Exploited
    case CorSeq002 => Compromised
    case CorSeq003 => MovedLaterallyTo
  }

  function ConfidenceOf(rule: RuleId): real {
    match rule
    case CorSeq001 => 0.85
    case CorSeq002 => 0.92
    case CorSeq003 => 0.90
  }

  // What the triggering observation itself must look like.
  predicate Triggers(rule: RuleId, o: Observation) {
    && o.obj.Some?
    && match rule
       case CorSeq001 => o.activity == EXPLOIT_ATTEMPT
       case CorSeq002 => o.eventClass == ProcessActivity && o.suspiciousChild && o.attackSource.Some?
       case CorSeq003 => o.eventClass == Authentication
  }

  // The entity the derived relationship starts from.
  function DerivedSource(rule: RuleId, o: Observation): string
    requires Triggers(rule, o)
  {
    if rule == CorSeq002 then o.attackSource.value else o.subject.id
  }

  function DerivedId(rule: RuleId, o: Observation): RelationshipId
    requires Triggers(rule, o)
  {
    RelationshipId(o.tenant, DerivedSource(rule, o), Output(rule), o.obj.value.id, Deterministic, Some(rule))
  }

  // The relationships a trigger may build on; only their earlier lineage counts.
  predicate Supports(rule: RuleId, o: Observation, sup: RelationshipId)
    requires Triggers(rule, o)
  {
    && sup.tenant == o.tenant
    && match rule
       case CorSeq001 =>
         sup.rtype == HasVulnerability && sup.provenance == Observed && sup.source == o.obj.value.id
       case CorSeq002 =>
         sup.rtype == Exploited && sup.source == o.attackSource.value && sup.target == o.obj.value.id
       case CorSeq003 =>
         sup.rtype == Compromised && sup.target == o.subject.id
  }
}
