/** Which rows each rule writes for an observation, read off the stored tables and the observation's own
    fields. */
module DerivedRows {
  import opened Domain
  import opened Spans
  import opened RelationshipGraph
  import opened CorrelationRules
  import opened CorrelationHistory
  import opened CorrelationExactness
  import opened CorrelationTheorems
  import opened GraphInvariants

  // The row a rule wrote for the n-th observation.
  ghost predicate RowFor(g: Graph, log: seq<Observation>, n: nat, rule: RuleId, k: LineageKey)
    requires 1 <= n <= |log|
  {
    && k in g.derivations && g.derivations[k].rule == rule
    && k.rid.tenant == log[n - 1].tenant && k.obsId == log[n - 1].id
  }

  /* ----- From rows to derivations ----- */

  lemma RowDerivation(g: Graph, log: seq<Observation>, cfg: Config, r: nat, c: nat, n: nat, rule: RuleId, k: LineageKey)
    returns (d: Derivation)
    requires 1 <= n <= c <= r <= |log| && UniqueObservations(log) && GraphAt(g, log, cfg, r, c)
    requires RowFor(g, log, n, rule, k)
    ensures d in Derivations(log, cfg, c) && KeyOf(d.entry) == k && d.rule == rule && d.entry.seqNo == n
    ensures rule in Rules(cfg.ruleset) && Fires(cfg.ruleOntology, Known(log, cfg, n - 1), ItemAt(log, n), rule)
    ensures d == Derive(cfg.ruleOntology, Known(log, cfg, n - 1), ItemAt(log, n), rule)
  {
    hide Derivations, TablesExact, Stated, Fires, Derive, Shaped, Known, Rules, UniqueObservations;
    d :| d in Derivations(log, cfg, c) && KeyOf(d.entry) == k;
    DerivationShape(log, cfg, c, d);
    PositionOf(cfg, log, d, n);
  }

  lemma PositionOf(cfg: Config, log: seq<Observation>, d: Derivation, n: nat)
    requires UniqueObservations(log) && Shaped(cfg.ruleOntology, log, d) && 1 <= n <= |log|
    requires d.entry.rid.tenant == log[n - 1].tenant && d.entry.obs.id == log[n - 1].id
    ensures d.entry.seqNo == n
  {
  }

  lemma DerivationRowWritten(g: Graph, log: seq<Observation>, cfg: Config, r: nat, c: nat, n: nat, rule: RuleId)
    returns (d: Derivation)
    requires 1 <= n <= c <= r <= |log| && GraphAt(g, log, cfg, r, c)
    requires rule in Rules(cfg.ruleset) && Fires(cfg.ruleOntology, Known(log, cfg, n - 1), ItemAt(log, n), rule)
    ensures d == Derive(cfg.ruleOntology, Known(log, cfg, n - 1), ItemAt(log, n), rule)
    ensures d in Derivations(log, cfg, c) && RowFor(g, log, n, rule, KeyOf(d.entry))
  {
    hide Derivations, TablesExact, Stated, Fires, Known, Rules;
    d := Derive(cfg.ruleOntology, Known(log, cfg, n - 1), ItemAt(log, n), rule);
    hide Derive;
    DeriveAt(cfg, Known(log, cfg, n - 1), ItemAt(log, n), rule);
    DerivationMember(log, cfg, c, d);
    assert g.derivations[KeyOf(d.entry)] == DerivationRowOf(d);
  }

  lemma DeriveAt(cfg: Config, es: set<Entry>, item: Item, rule: RuleId)
    requires Fires(cfg.ruleOntology, es, item, rule)
    ensures var d := Derive(cfg.ruleOntology, es, item, rule);
      d.rule == rule && d.entry.seqNo == item.seqNo && d.entry.obs == item.obs && d.entry.rid.tenant == item.obs.tenant
  {
  }

  /* ----- From lineage rows to known entries ----- */

  // The lineage row j shows the entry e.
  ghost predicate RowShows(g: Graph, j: LineageKey, e: Entry) {
    && KeyOf(e) == j && j in g.lineage && g.lineage[j] == Point(e.seqNo, e.obs.eventTime)
    && j.rid in g.relationships
    && g.relationships[j.rid].rtype == e.rid.rtype && g.relationships[j.rid].provenance == e.rid.provenance
    && g.relationships[j.rid].sourceId == e.rid.source && g.relationships[j.rid].sourceType == e.sourceType
    && g.relationships[j.rid].targetId == e.rid.target && g.relationships[j.rid].targetType == e.targetType
  }

  lemma KnownShown(g: Graph, log: seq<Observation>, cfg: Config, r: nat, c: nat, n: nat, e: Entry)
    requires 1 <= n <= c <= r <= |log| && GraphAt(g, log, cfg, r, c) && e in Known(log, cfg, n - 1)
    ensures RowShows(g, KeyOf(e), e) && e.seqNo < n
  {
    hide GraphAt, Derivations, Known, Present, LineageTablesExact, Readable;
    PresentReadable(g, log, cfg, r, c);
    KnownPresent(log, cfg, r, c, n - 1, e);
    KnownBounded(log, cfg, n - 1, e);
    EntryRows(g, Present(log, cfg, r, c), e);
  }

  lemma LineageKnown(g: Graph, log: seq<Observation>, cfg: Config, r: nat, c: nat, n: nat, j: LineageKey) returns (e: Entry)
    requires 1 <= n <= c <= r <= |log| && GraphAt(g, log, cfg, r, c)
    requires j in g.lineage && g.lineage[j].seqNo < n
    ensures e in Known(log, cfg, n - 1) && RowShows(g, j, e)
  {
    hide GraphAt, Derivations, Known;
    LineageUpTo(g, log, cfg, r, c, n - 1, j);
    e :| e in Known(log, cfg, n - 1) && KeyOf(e) == j;
    KnownShown(g, log, cfg, r, c, n, e);
  }

  /* ----- What a rule builds on ----- */

  // The lineage row j, before position n, is of a relationship the rule looks for beside o.
  ghost predicate BuildsOn(g: Graph, o: Observation, n: nat, rule: RuleId, j: LineageKey) {
    && j in g.lineage && g.lineage[j].seqNo < n
    && j.rid.tenant == o.tenant && j.rid in g.relationships
    && var row := g.relationships[j.rid];
       match rule
       case CorSeq001 =>
         o.obj.Some? && row.rtype == HasVulnerability && row.provenance == Observed && row.sourceId == o.obj.value.id
       case CorSeq002 =>
         o.attackSource.Some? && o.obj.Some? && row.rtype == Exploited
         && row.sourceId == o.attackSource.value && row.targetId == o.obj.value.id
       case CorSeq003 =>
         row.rtype == Compromised && row.targetId == o.subject.id
  }

  lemma BasisBuilds(g: Graph, log: seq<Observation>, cfg: Config, r: nat, c: nat, n: nat, rule: RuleId, e: Entry)
    requires 1 <= n <= c <= r <= |log| && GraphAt(g, log, cfg, r, c) && Triggers(rule, log[n - 1])
    requires e in Basis(Known(log, cfg, n - 1), ItemAt(log, n), rule)
    ensures RowShows(g, KeyOf(e), e) && BuildsOn(g, log[n - 1], n, rule, KeyOf(e))
  {
    hide GraphAt, Known;
    KnownShown(g, log, cfg, r, c, n, e);
  }

  lemma BuildsOnBasis(g: Graph, log: seq<Observation>, cfg: Config, r: nat, c: nat, n: nat, rule: RuleId, j: LineageKey)
    returns (e: Entry)
    requires 1 <= n <= c <= r <= |log| && GraphAt(g, log, cfg, r, c) && Triggers(rule, log[n - 1])
    requires BuildsOn(g, log[n - 1], n, rule, j)
    ensures e in Basis(Known(log, cfg, n - 1), ItemAt(log, n), rule) && RowShows(g, j, e)
  {
    hide GraphAt, Known;
    e := LineageKnown(g, log, cfg, r, c, n, j);
    KnownBounded(log, cfg, n - 1, e);
  }

  lemma BasisNonempty(g: Graph, log: seq<Observation>, cfg: Config, r: nat, c: nat, n: nat, rule: RuleId)
    requires 1 <= n <= c <= r <= |log| && GraphAt(g, log, cfg, r, c) && Triggers(rule, log[n - 1])
    ensures var o := log[n - 1];
      Basis(Known(log, cfg, n - 1), ItemAt(log, n), rule) != {} <==> exists j :: BuildsOn(g, o, n, rule, j)
  {
    hide GraphAt, Known, BuildsOn, Basis;
    var o, basis := log[n - 1], Basis(Known(log, cfg, n - 1), ItemAt(log, n), rule);
    if e :| e in basis {
      BasisBuilds(g, log, cfg, r, c, n, rule, e);
    }
    if j :| BuildsOn(g, o, n, rule, j) {
      var e := BuildsOnBasis(g, log, cfg, r, c, n, rule, j);
    }
  }

  /* ----- When each rule writes a row ----- */

  lemma WritesIffFires(g: Graph, log: seq<Observation>, cfg: Config, r: nat, c: nat, n: nat, rule: RuleId)
    requires 1 <= n <= c <= r <= |log| && UniqueObservations(log) && GraphAt(g, log, cfg, r, c)
    ensures (exists k :: RowFor(g, log, n, rule, k)) <==>
      rule in Rules(cfg.ruleset) && Fires(cfg.ruleOntology, Known(log, cfg, n - 1), ItemAt(log, n), rule)
  {
    hide GraphAt, Derivations, Known, Fires, Derive, Rules, UniqueObservations, RowFor;
    if k :| RowFor(g, log, n, rule, k) {
      var d := RowDerivation(g, log, cfg, r, c, n, rule, k);
    }
    if rule in Rules(cfg.ruleset) && Fires(cfg.ruleOntology, Known(log, cfg, n - 1), ItemAt(log, n), rule) {
      var d := DerivationRowWritten(g, log, cfg, r, c, n, rule);
    }
  }

  /** COR-SEQ-001, under every ruleset: an exploit attempt against an entity an earlier observation stated a
      vulnerability of, if the rules' ontology lets its subject exploit it. */
  lemma ExploitRow(g: Graph, log: seq<Observation>, cfg: Config, r: nat, c: nat, n: nat)
    requires 1 <= n <= c <= r <= |log| && UniqueObservations(log) && GraphAt(g, log, cfg, r, c)
    ensures var o := log[n - 1];
      (exists k :: RowFor(g, log, n, CorSeq001, k)) <==>
      && o.activity == "exploit_attempt" && o.obj.Some?
      && (exists j :: BuildsOn(g, o, n, CorSeq001, j))
      && Exploited in cfg.ruleOntology.sources && o.subject.etype in cfg.ruleOntology.sources[Exploited]
      && Exploited in cfg.ruleOntology.targets && o.obj.value.etype in cfg.ruleOntology.targets[Exploited]
  {
    hide GraphAt, Known, BuildsOn, Basis, UniqueObservations, RowFor;
    WritesIffFires(g, log, cfg, r, c, n, CorSeq001);
    if Triggers(CorSeq001, log[n - 1]) {
      BasisNonempty(g, log, cfg, r, c, n, CorSeq001);
    }
  }

  /** COR-SEQ-002, under rulesets 2 and 3: a suspicious child process on an entity, with an attack source that
      an earlier relationship, observed or derived, has as its exploiter, if the rules' ontology lets that
      exploiter compromise it. */
  lemma CompromiseRow(g: Graph, log: seq<Observation>, cfg: Config, r: nat, c: nat, n: nat)
    requires 1 <= n <= c <= r <= |log| && UniqueObservations(log) && GraphAt(g, log, cfg, r, c)
    requires TypesConsistent(cfg, log, n)
    ensures var o := log[n - 1];
      (exists k :: RowFor(g, log, n, CorSeq002, k)) <==>
      && (cfg.ruleset == RulesetV2 || cfg.ruleset == RulesetV3)
      && o.eventClass == ProcessActivity && o.suspiciousChild
      && o.attackSource.Some? && o.obj.Some?
      && (exists j :: BuildsOn(g, o, n, CorSeq002, j)
            && Compromised in cfg.ruleOntology.sources
            && g.relationships[j.rid].sourceType in cfg.ruleOntology.sources[Compromised])
      && Compromised in cfg.ruleOntology.targets && o.obj.value.etype in cfg.ruleOntology.targets[Compromised]
  {
    hide GraphAt, Known, Fired, Agrees, UniqueObservations, RowFor;
    WritesIffFires(g, log, cfg, r, c, n, CorSeq002);
    if Triggers(CorSeq002, log[n - 1]) && CorSeq002 in Rules(cfg.ruleset) {
      var o := log[n - 1];
      forall j | BuildsOn(g, o, n, CorSeq002, j)
        ensures var basis := Basis(Known(log, cfg, n - 1), ItemAt(log, n), CorSeq002);
          basis != {} && g.relationships[j.rid].sourceType == BasisSourceType(basis, ItemAt(log, n), CorSeq002)
      {
        SourceTypeShown(g, log, cfg, r, c, n, j);
      }
      BasisNonempty(g, log, cfg, r, c, n, CorSeq002);
    }
  }

  // Everything COR-SEQ-002 builds on has the source type it derives with.
  lemma SourceTypeShown(g: Graph, log: seq<Observation>, cfg: Config, r: nat, c: nat, n: nat, j: LineageKey)
    requires 1 <= n <= c <= r <= |log| && GraphAt(g, log, cfg, r, c)
    requires TypesConsistent(cfg, log, n) && Triggers(CorSeq002, log[n - 1]) && CorSeq002 in Rules(cfg.ruleset)
    requires BuildsOn(g, log[n - 1], n, CorSeq002, j)
    ensures var basis := Basis(Known(log, cfg, n - 1), ItemAt(log, n), CorSeq002);
      basis != {} && g.relationships[j.rid].sourceType == BasisSourceType(basis, ItemAt(log, n), CorSeq002)
  {
    hide GraphAt, Known, Fired, Agrees, Supports;
    var rules := Rules(cfg.ruleset);
    assert rules[1] == CorSeq002;
    assert !Inconsistent(Known(log, cfg, n - 1), ItemAt(log, n), CorSeq002);
    var e := BuildsOnBasis(g, log, cfg, r, c, n, CorSeq002, j);
    hide Basis;
  }

  /** COR-SEQ-003, under ruleset 3: an authentication from an entity that an earlier relationship, observed
      or derived, has as compromised, if the rules' ontology lets it move to the object. */
  lemma LateralMoveRow(g: Graph, log: seq<Observation>, cfg: Config, r: nat, c: nat, n: nat)
    requires 1 <= n <= c <= r <= |log| && UniqueObservations(log) && GraphAt(g, log, cfg, r, c)
    ensures var o := log[n - 1];
      (exists k :: RowFor(g, log, n, CorSeq003, k)) <==>
      && cfg.ruleset == RulesetV3
      && o.eventClass == Authentication && o.obj.Some?
      && (exists j :: BuildsOn(g, o, n, CorSeq003, j))
      && MovedLaterallyTo in cfg.ruleOntology.sources && o.subject.etype in cfg.ruleOntology.sources[MovedLaterallyTo]
      && MovedLaterallyTo in cfg.ruleOntology.targets && o.obj.value.etype in cfg.ruleOntology.targets[MovedLaterallyTo]
  {
    hide GraphAt, Known, BuildsOn, Basis, UniqueObservations, RowFor;
    WritesIffFires(g, log, cfg, r, c, n, CorSeq003);
    if Triggers(CorSeq003, log[n - 1]) {
      BasisNonempty(g, log, cfg, r, c, n, CorSeq003);
    }
  }

  /* ----- What it writes ----- */

  // The derivation, lineage and relationship rows with the row k a rule wrote for the n-th observation.
  ghost predicate Recorded(g: Graph, o: Observation, n: nat, rule: RuleId, k: LineageKey) {
    && k in g.derivations
    && g.derivations[k].rule == rule && g.derivations[k].triggerSeq == n && g.derivations[k].time == o.eventTime
    && g.derivations[k].confidence == (match rule case CorSeq001 => 0.85 case CorSeq002 => 0.92 case CorSeq003 => 0.90)
    && k in g.lineage && g.lineage[k].seqNo == n && g.lineage[k].time == o.eventTime
    && o.obj.Some? && (rule == CorSeq002 ==> o.attackSource.Some?)
    && k.rid in g.relationships
    && var row := g.relationships[k.rid];
       && row.provenance == Deterministic && row.rule == Some(rule)
       && row.rtype == (match rule case CorSeq001 => Exploited case CorSeq002 => Compromised case CorSeq003 => MovedLaterallyTo)
       && row.sourceId == (if rule == CorSeq002 then o.attackSource.value else o.subject.id)
       && row.targetId == o.obj.value.id && row.targetType == o.obj.value.etype
       && row.confidence == g.derivations[k].confidence
  }

  // Its supports, and its evidence in the two roles.
  ghost predicate RecordedSupports(g: Graph, o: Observation, n: nat, rule: RuleId, k: LineageKey) {
    forall sup :: SupportRow(k, sup) in g.supports <==> exists j :: BuildsOn(g, o, n, rule, j) && j.rid == sup
  }

  ghost predicate RecordedEvidence(g: Graph, log: seq<Observation>, o: Observation, n: nat, rule: RuleId, k: LineageKey) {
    && (forall x :: RoleRow(k, x, TriggerRole) in g.roles <==> exists e :: e in o.evidence && e.id == x)
    && (forall x :: RoleRow(k, x, SupportRole) in g.roles <==>
          exists j, p, e :: BuildsOn(g, o, n, rule, j) && p in log && p.tenant == o.tenant && p.id == j.obsId
                            && e in p.evidence && e.id == x)
  }

  lemma SupportsRecorded(g: Graph, log: seq<Observation>, cfg: Config, r: nat, c: nat, n: nat, rule: RuleId, sup: RelationshipId)
    requires 1 <= n <= c <= r <= |log| && GraphAt(g, log, cfg, r, c) && Triggers(rule, log[n - 1])
    ensures var o, basis := log[n - 1], Basis(Known(log, cfg, n - 1), ItemAt(log, n), rule);
      (exists e :: e in basis && e.rid == sup) <==> exists j :: BuildsOn(g, o, n, rule, j) && j.rid == sup
  {
    hide GraphAt, Known, BuildsOn, Basis;
    var o, basis := log[n - 1], Basis(Known(log, cfg, n - 1), ItemAt(log, n), rule);
    if e :| e in basis && e.rid == sup {
      BasisBuilds(g, log, cfg, r, c, n, rule, e);
      assert KeyOf(e).rid == sup;
    }
    if j :| BuildsOn(g, o, n, rule, j) && j.rid == sup {
      var e := BuildsOnBasis(g, log, cfg, r, c, n, rule, j);
    }
  }

  lemma EvidenceRecorded(g: Graph, log: seq<Observation>, cfg: Config, r: nat, c: nat, n: nat, rule: RuleId, x: string)
    requires 1 <= n <= c <= r <= |log| && UniqueObservations(log) && GraphAt(g, log, cfg, r, c) && Triggers(rule, log[n - 1])
    ensures var o := log[n - 1];
      x in BasisEvidence(Basis(Known(log, cfg, n - 1), ItemAt(log, n), rule)) <==>
      exists j, p, e :: BuildsOn(g, o, n, rule, j) && p in log && p.tenant == o.tenant && p.id == j.obsId
                        && e in p.evidence && e.id == x
  {
    hide GraphAt, Known, BuildsOn, UniqueObservations;
    var o, basis := log[n - 1], Basis(Known(log, cfg, n - 1), ItemAt(log, n), rule);
    if x in BasisEvidence(basis) {
      var b :| b in basis && x in EvidenceIds(b.obs);
      BasisBuilds(g, log, cfg, r, c, n, rule, b);
      KnownInLog(log, cfg, n - 1, b);
      var e :| e in b.obs.evidence && e.id == x;
      assert BuildsOn(g, o, n, rule, KeyOf(b)) && b.obs in log && b.obs.tenant == o.tenant && b.obs.id == KeyOf(b).obsId;
    }
    if j, p, e :| BuildsOn(g, o, n, rule, j) && p in log && p.tenant == o.tenant && p.id == j.obsId && e in p.evidence && e.id == x {
      var b := BuildsOnBasis(g, log, cfg, r, c, n, rule, j);
      KnownInLog(log, cfg, n - 1, b);
      SameObservation(log, p, b.obs);
      assert x in EvidenceIds(b.obs);
    }
  }

  lemma KnownInLog(log: seq<Observation>, cfg: Config, n: nat, e: Entry)
    requires n <= |log| && e in Known(log, cfg, n)
    ensures e.obs in log && e.rid.tenant == e.obs.tenant
  {
    hide Derivations, Stated;
    KnownOrigin(log, cfg, n, n);
  }

  lemma SameObservation(log: seq<Observation>, p: Observation, q: Observation)
    requires UniqueObservations(log) && p in log && q in log && p.tenant == q.tenant && p.id == q.id
    ensures p == q
  {
    var i :| 0 <= i < |log| && log[i] == p;
    var j :| 0 <= j < |log| && log[j] == q;
  }

  // A derived relationship keeps the one confidence its rule gives.
  lemma RuleConfidence(g: Graph, log: seq<Observation>, cfg: Config, r: nat, c: nat, rid: RelationshipId, rule: RuleId)
    requires c <= r <= |log| && GraphAt(g, log, cfg, r, c)
    requires rid in g.relationships && rid.provenance == Deterministic && rid.rule == Some(rule)
    ensures g.relationships[rid].confidence == ConfidenceOf(rule)
  {
    hide Derivations, LineageTablesExact, Stated, Covers, Shaped, Justified;
    var row := g.relationships[rid];
    var e :| e in EntriesOf(EntriesAt(log, r, Derivations(log, cfg, c)), rid) && e.confidence == row.confidence;
    StatedObserved(log, r, e);
    var d :| d in Derivations(log, cfg, c) && d.entry == e;
    DerivationShape(log, cfg, c, d);
    ShapedConfidence(cfg, log, d);
  }

  lemma ShapedConfidence(cfg: Config, log: seq<Observation>, d: Derivation)
    requires Shaped(cfg.ruleOntology, log, d)
    ensures d.entry.confidence == ConfidenceOf(d.rule) && d.entry.rid.rule == Some(d.rule)
  {
  }

  /** Every row a rule wrote carries its position and time, its rule's confidence and its relationship's
      endpoints. */
  lemma RowRecorded(g: Graph, log: seq<Observation>, cfg: Config, r: nat, c: nat, n: nat, rule: RuleId, k: LineageKey)
    requires 1 <= n <= c <= r <= |log| && UniqueObservations(log) && GraphAt(g, log, cfg, r, c)
    requires RowFor(g, log, n, rule, k)
    ensures Recorded(g, log[n - 1], n, rule, k)
  {
    hide Derivations, Known, TablesExact, Stated, UniqueObservations, Present, Basis, BasisEvidence, BasisSourceType, Readable,
      Justified, Fires, Derive, GraphAt;
    var d := RowDerivation(g, log, cfg, r, c, n, rule, k);
    DerivationRowsUpTo(g, log, cfg, r, c, c, k);
    DerivationShape(log, cfg, c, d);
    PresentReadable(g, log, cfg, r, c);
    DerivedPresent(log, cfg, r, c, d);
    EntryRows(g, Present(log, cfg, r, c), d.entry);
    RuleConfidence(g, log, cfg, r, c, k.rid, rule);
    hide LineageTablesExact;
  }

  /** Its supports are exactly the relationships it builds on, and its evidence exactly its observation's as
      trigger and theirs as support. */
  lemma SupportsAndEvidence(g: Graph, log: seq<Observation>, cfg: Config, r: nat, c: nat, n: nat, rule: RuleId, k: LineageKey)
    requires 1 <= n <= c <= r <= |log| && UniqueObservations(log) && GraphAt(g, log, cfg, r, c)
    requires RowFor(g, log, n, rule, k)
    ensures RecordedSupports(g, log[n - 1], n, rule, k) && RecordedEvidence(g, log, log[n - 1], n, rule, k)
  {
    hide Derivations, Known, TablesExact, Stated, BuildsOn, Basis, BasisSourceType, BasisEvidence, UniqueObservations,
      LineageTablesExact, Fires, RowFor;
    var o := log[n - 1];
    var d := RowDerivation(g, log, cfg, r, c, n, rule, k);
    DerivationRowsUpTo(g, log, cfg, r, c, c, k);
    DeriveParts(cfg, Known(log, cfg, n - 1), ItemAt(log, n), rule);
    hide Derive, GraphAt;
    forall sup
      ensures SupportRow(k, sup) in g.supports <==> exists j :: BuildsOn(g, o, n, rule, j) && j.rid == sup
    {
      SupportsRecorded(g, log, cfg, r, c, n, rule, sup);
    }
    forall x
      ensures RoleRow(k, x, TriggerRole) in g.roles <==> exists e :: e in o.evidence && e.id == x
      ensures RoleRow(k, x, SupportRole) in g.roles <==>
        exists j, p, e :: BuildsOn(g, o, n, rule, j) && p in log && p.tenant == o.tenant && p.id == j.obsId
                          && e in p.evidence && e.id == x
    {
      RolesWritten(g, log, cfg, r, c, d, x);
      EvidenceRecorded(g, log, cfg, r, c, n, rule, x);
    }
  }

  lemma DeriveParts(cfg: Config, es: set<Entry>, item: Item, rule: RuleId)
    requires Fires(cfg.ruleOntology, es, item, rule)
    ensures var d := Derive(cfg.ruleOntology, es, item, rule);
      && Triggers(rule, item.obs)
      && d.triggerEvidence == EvidenceIds(item.obs) && d.supportEvidence == BasisEvidence(Basis(es, item, rule))
      && (forall sup :: sup in d.supports <==> exists e :: e in Basis(es, item, rule) && e.rid == sup)
  {
  }

  lemma RolesWritten(g: Graph, log: seq<Observation>, cfg: Config, r: nat, c: nat, d: Derivation, x: string)
    requires c <= r <= |log| && UniqueObservations(log) && GraphAt(g, log, cfg, r, c) && d in Derivations(log, cfg, c)
    ensures RoleRow(KeyOf(d.entry), x, TriggerRole) in g.roles <==> x in d.triggerEvidence
    ensures RoleRow(KeyOf(d.entry), x, SupportRole) in g.roles <==> x in d.supportEvidence
  {
    hide Derivations, UniqueObservations, Shaped, Justified, TablesExact;
    var ds := Derivations(log, cfg, c);
    DerivationShape(log, cfg, c, d);
    forall y | y in ds && KeyOf(y.entry) == KeyOf(d.entry)
      ensures y == d
    {
      DerivationShape(log, cfg, c, y);
      UniqueKey(log, cfg, y, d);
    }
    assert RoleRow(KeyOf(d.entry), x, TriggerRole) in RoleRowsOf(d) <==> x in d.triggerEvidence;
    assert RoleRow(KeyOf(d.entry), x, SupportRole) in RoleRowsOf(d) <==> x in d.supportEvidence;
  }
}
