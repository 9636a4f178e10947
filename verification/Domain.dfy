/** The observation contract, the ontology's edge rules and the deterministic relationship
    identifier shared by every projector. */
module Domain {

  datatype Option<+T> = None | Some(value: T)

  datatype EntityType =
    | Asset | Application | Identity | Process | NetworkEndpoint | CloudResource
    | Vulnerability | IpAddress | DomainName | File | Certificate | DataStore

  datatype EventClass =
    | ExposureFinding | NetworkActivity | ProcessActivity | Authentication
    | DataAccess | CloudActivity | ThreatIntel | AnalystAction

  datatype RelationshipType =
    | HasVulnerability | Targeted | CommunicatesWith | RunsOn | Spawned | AuthenticatedTo
    | Accessed | ResolvedTo | Exploited | Compromised | MovedLaterallyTo

  // The two provenance classes the relationship store accepts.
  datatype Provenance = Observed | Deterministic

  // Each built-in rule exists in version "1" only, so a rule stands for (rule_id, rule_version).
  datatype RuleId = CorSeq001 | CorSeq002 | CorSeq003

  datatype EntityRef = EntityRef(id: string, etype: EntityType, displayLabel: string, attributes: map<string, string>)

  datatype EvidenceRef = EvidenceRef(id: string, payload: string)

  /** `attackSource` is the nonblank correlation key of that name, None when missing or blank.
      `payload` stands for the remaining immutable fields. */
  datatype Observation = Observation(
    id: string,
    tenant: string,
    source: string,
    eventTime: int,
    eventClass: EventClass,
    activity: string,
    confidence: real,
    subject: EntityRef,
    obj: Option<EntityRef>,
    relationship: Option<RelationshipType>,
    evidence: seq<EvidenceRef>,
    suspiciousChild: bool,
    attackSource: Option<string>,
    payload: string
  )

  // A sequenced observation: a log entry with its position.
  datatype Item = Item(seqNo: nat, obs: Observation)

  ghost function ItemSet(items: seq<Item>): set<Item> {
    set it | it in items
  }

  /** How one handler call ends: it returns, it reports the observation as poison, or it raises an
      invariant or infrastructure error that rolls the whole batch back. */
  datatype Attempt<+S> = Done(state: S) | Poison(code: string) | Aborted

  datatype Verdict = Handled | Rejected(code: string) | Raised

  const EXPLOIT_ATTEMPT := "exploit_attempt"

  function EvidenceIds(o: Observation): set<string> {
    set e | e in o.evidence :: e.id
  }

  /** The hash of (tenant, source, type, target, provenance, rule), taken to be injective. */
  datatype RelationshipId = RelationshipId(
    tenant: string,
    source: string,
    rtype: RelationshipType,
    target: string,
    provenance: Provenance,
    rule: Option<RuleId>
  )

  // The relationship an observation states directly, if it states one.
  function ObservedId(o: Observation): Option<RelationshipId> {
    if o.relationship.Some? && o.obj.Some?
    then Some(RelationshipId(o.tenant, o.subject.id, o.relationship.value, o.obj.value.id, Observed, None))
    else None
  }

  /** A registry: the entity types each relationship type may start from and end at. */
  datatype Ontology = Ontology(
    sources: map<RelationshipType, set<EntityType>>,
    targets: map<RelationshipType, set<EntityType>>
  )

  predicate ValidEdge(ont: Ontology, r: RelationshipType, source: EntityType, target: EntityType) {
    r in ont.sources && source in ont.sources[r] && r in ont.targets && target in ont.targets[r]
  }

  // The log holds each (tenant, observation id) once.
  ghost predicate UniqueObservations(log: seq<Observation>) {
    forall i, j | 0 <= i < j < |log| :: log[i].tenant != log[j].tenant || log[i].id != log[j].id
  }
}
