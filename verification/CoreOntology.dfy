/** The built-in ontology's edge tables, and what they imply for the correlation rules. */
module CoreOntology {
  import opened Domain
  import opened RelationshipGraph
  import opened CorrelationRules
  import opened CorrelationHistory
  import opened CorrelationTheorems
  import Ingestion

  const ATTACKERS := {IpAddress, DomainName, NetworkEndpoint, Identity, Asset, Application, EntityType.Process}

  const CORE_ONTOLOGY := Ontology(
    map[
      HasVulnerability := {Asset, Application, CloudResource, NetworkEndpoint, DataStore},
      Targeted := {IpAddress, DomainName, NetworkEndpoint, Identity, Asset, Application},
      CommunicatesWith := {EntityType.Process, Asset, Application, NetworkEndpoint, CloudResource},
      RunsOn := {EntityType.Process, Application, DataStore},
      Spawned := {EntityType.Process},
      AuthenticatedTo := {Identity, Asset, Application, EntityType.Process},
      Accessed := {Identity, EntityType.Process, Application, Asset},
      ResolvedTo := {DomainName},
      Exploited := ATTACKERS,
      Compromised := ATTACKERS,
      MovedLaterallyTo := {Asset, Application, Identity, EntityType.Process}
    ],
    map[
      HasVulnerability := {Vulnerability},
      Targeted := {Asset, Application, Identity, NetworkEndpoint, CloudResource, DataStore},
      CommunicatesWith := {DomainName, IpAddress, NetworkEndpoint, Asset, Application, CloudResource},
      RunsOn := {Asset, CloudResource},
      Spawned := {EntityType.Process},
      AuthenticatedTo := {Asset, Application, CloudResource, DataStore},
      Accessed := {File, DataStore, Application, CloudResource},
      ResolvedTo := {IpAddress},
      Exploited := {Asset, Application, CloudResource, NetworkEndpoint, DataStore},
      Compromised := {Asset, Application, Identity, CloudResource, NetworkEndpoint, DataStore},
      MovedLaterallyTo := {Asset, Application, CloudResource, DataStore}
    ])

  // What the tables of three relationship types have in common.
  lemma SharedEndpoints(s: EntityType, t: EntityType)
    ensures ValidEdge(CORE_ONTOLOGY, Exploited, s, t) ==> ValidEdge(CORE_ONTOLOGY, Compromised, s, t)
    ensures ValidEdge(CORE_ONTOLOGY, HasVulnerability, t, Vulnerability) <==> t in CORE_ONTOLOGY.targets[Exploited]
  {
  }

  /** Every relationship known from a log whose edges obey the rules' ontology obeys it too, whether
      stated or derived. */
  lemma KnownEdgesValid(log: seq<Observation>, cfg: Config, n: nat, e: Entry)
    requires n <= |log| && Ingestion.EdgesValid(cfg.ruleOntology, log) && e in Known(log, cfg, n)
    ensures ValidEdge(cfg.ruleOntology, e.rid.rtype, e.sourceType, e.targetType)
  {
    hide Derivations, Stated, Justified, ValidEdge;
    StatedMember(log, n, e);
    if e in Stated(log, n) {
      assert log[e.seqNo - 1] in log;
    } else {
      var d :| d in Derivations(log, cfg, n) && d.entry == e;
      DerivationMember(log, cfg, n, d);
      JustifiedShaped(log, cfg, d);
    }
  }

  /** With the built-in ontology, on a consistently typed log: a compromise is derived whenever its
      trigger has an earlier exploit to build on, the ontology check behind it never deciding; an
      exploit is derived exactly when the attacker's type may exploit. */
  lemma OntologyDecides(log: seq<Observation>, cfg: Config, n: nat)
    requires 1 <= n <= |log| && cfg.ruleOntology == CORE_ONTOLOGY
    requires Ingestion.EdgesValid(CORE_ONTOLOGY, log) && OneType(log, n)
    ensures var es, item := Known(log, cfg, n - 1), ItemAt(log, n);
      && (Fires(CORE_ONTOLOGY, es, item, CorSeq002) <==> Triggers(CorSeq002, item.obs) && Basis(es, item, CorSeq002) != {})
      && (Fires(CORE_ONTOLOGY, es, item, CorSeq001) <==>
            Triggers(CorSeq001, item.obs) && Basis(es, item, CorSeq001) != {} && item.obs.subject.etype in ATTACKERS)
  {
    hide Known, OneType, ValidEdge;
    var es, item := Known(log, cfg, n - 1), ItemAt(log, n);
    if Triggers(CorSeq002, item.obs) && Basis(es, item, CorSeq002) != {} {
      OneTypeBasis(log, cfg, n, CorSeq002);
      var s := BasisSourceType(Basis(es, item, CorSeq002), item, CorSeq002);
      var e :| e in Basis(es, item, CorSeq002) && e.sourceType == s;
      KnownEdgesValid(log, cfg, n - 1, e);
      SharedEndpoints(e.sourceType, e.targetType);
    }
    if Triggers(CorSeq001, item.obs) && Basis(es, item, CorSeq001) != {} {
      var e :| e in Basis(es, item, CorSeq001);
      KnownEdgesValid(log, cfg, n - 1, e);
      SourceTyped(log, cfg, n, e);
      VulnerableIsExploitable(item.obs.subject.etype, e.sourceType, e.targetType);
    }
  }

  lemma VulnerableIsExploitable(attacker: EntityType, t: EntityType, v: EntityType)
    requires ValidEdge(CORE_ONTOLOGY, HasVulnerability, t, v)
    ensures ValidEdge(CORE_ONTOLOGY, Exploited, attacker, t) <==> attacker in ATTACKERS
  {
  }

  // An earlier entry out of the trigger's object gives it the trigger's type.
  lemma SourceTyped(log: seq<Observation>, cfg: Config, n: nat, e: Entry)
    requires 1 <= n <= |log| && OneType(log, n) && e in Known(log, cfg, n - 1)
    requires log[n - 1].obj.Some? && e.rid.tenant == log[n - 1].tenant && e.rid.source == log[n - 1].obj.value.id
    ensures e.sourceType == log[n - 1].obj.value.etype
  {
    hide Known, Refs;
    var o := log[n - 1];
    KnownTypes(log, cfg, n - 1, e);
    RefsGrow(log, n - 1, n);
    var ref := TypedRef(o.tenant, o.obj.value.id, o.obj.value.etype);
    assert ref in RefsOf(o);
    RefAt(log, n, n, ref);
  }
}
