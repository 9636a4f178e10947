/** What the correlation projector must have written, defined by recursion over the log alone,
    and the proof that the handler writes exactly that. */
module CorrelationHistory {
  import opened Domain
  import opened RelationshipGraph
  import opened RelationshipProjection
  import opened CorrelationRules
  import opened CorrelationProjection

  datatype Derivation = Derivation(
    entry: Entry,
    rule: RuleId,
    supports: set<RelationshipId>,
    triggerEvidence: set<string>,
    supportEvidence: set<string>
  )

  /* ----- The recursive definition ----- */

  function ItemAt(log: seq<Observation>, k: nat): Item
    requires 1 <= k <= |log|
  {
    Item(k, log[k - 1])
  }

  ghost function Items(log: seq<Observation>, n: nat): set<Item>
    requires n <= |log|
  {
    set k: nat | 1 <= k <= n :: ItemAt(log, k)
  }

  // The relationships the first n observations state directly.
  ghost function Stated(log: seq<Observation>, n: nat): set<Entry>
    requires n <= |log|
  {
    ObservedEntries(Items(log, n))
  }

  ghost function DerivedEntries(ds: set<Derivation>): set<Entry> {
    set d | d in ds :: d.entry
  }

  // The earlier entries a trigger builds on.
  ghost function Basis(es: set<Entry>, item: Item, rule: RuleId): (basis: set<Entry>)
    requires Triggers(rule, item.obs)
    ensures basis <= es
  {
    set e | e in es && e.seqNo < item.seqNo && Supports(rule, item.obs, e.rid)
  }

  ghost function BasisSourceType(basis: set<Entry>, item: Item, rule: RuleId): EntityType
    requires basis != {}
  {
    if rule == CorSeq002 then (var e :| e in basis; e.sourceType) else item.obs.subject.etype
  }

  ghost predicate Fires(ont: Ontology, es: set<Entry>, item: Item, rule: RuleId) {
    && Triggers(rule, item.obs)
    && Basis(es, item, rule) != {}
    && ValidEdge(ont, Output(rule), BasisSourceType(Basis(es, item, rule), item, rule), item.obs.obj.value.etype)
  }

  ghost predicate SourcesAgree(basis: set<Entry>) {
    forall a, b | a in basis && b in basis :: a.sourceType == b.sourceType
  }

  ghost predicate TargetsAre(basis: set<Entry>, t: EntityType) {
    forall a | a in basis :: a.targetType == t
  }

  // The basis types an endpoint differently from the trigger, or from itself.
  ghost predicate Inconsistent(es: set<Entry>, item: Item, rule: RuleId) {
    && Triggers(rule, item.obs)
    && var basis := Basis(es, item, rule);
       match rule
       case CorSeq001 => false
       case CorSeq002 => !SourcesAgree(basis) || !TargetsAre(basis, item.obs.obj.value.etype)
       case CorSeq003 => !TargetsAre(basis, item.obs.subject.etype)
  }

  ghost function BasisEvidence(basis: set<Entry>): set<string> {
    set e, x | e in basis && x in EvidenceIds(e.obs) :: x
  }

  ghost function Derive(ont: Ontology, es: set<Entry>, item: Item, rule: RuleId): Derivation
    requires Fires(ont, es, item, rule)
  {
    var basis := Basis(es, item, rule);
    Derivation(
      Entry(DerivedId(rule, item.obs), item.seqNo, item.obs, BasisSourceType(basis, item, rule),
            item.obs.obj.value.etype, ConfidenceOf(rule), EvidenceIds(item.obs) + BasisEvidence(basis)),
      rule,
      set e | e in basis :: e.rid,
      EvidenceIds(item.obs),
      BasisEvidence(basis))
  }

  ghost function NewDerivations(cfg: Config, es: set<Entry>, item: Item): set<Derivation> {
    set r | r in Rules(cfg.ruleset) && Fires(cfg.ruleOntology, es, item, r) :: Derive(cfg.ruleOntology, es, item, r)
  }

  ghost function Derivations(log: seq<Observation>, cfg: Config, n: nat): set<Derivation>
    requires n <= |log|
  {
    if n == 0 then {}
    else
      var before := Derivations(log, cfg, n - 1);
      before + NewDerivations(cfg, Stated(log, n - 1) + DerivedEntries(before), ItemAt(log, n))
  }

  // Every entry of the graph once both projectors stand at n.
  ghost function Known(log: seq<Observation>, cfg: Config, n: nat): set<Entry>
    requires n <= |log|
  {
    Stated(log, n) + DerivedEntries(Derivations(log, cfg, n))
  }

  ghost function EvidenceLinks(log: seq<Observation>): set<EvidenceLink> {
    set o, x | o in log && x in EvidenceIds(o) :: EvidenceLink(o.tenant, o.id, x)
  }

  /* ----- What is in the history ----- */

  ghost predicate JustifiedFrom(cfg: Config, es: set<Entry>, item: Item, d: Derivation) {
    && d.rule in Rules(cfg.ruleset)
    && Fires(cfg.ruleOntology, es, item, d.rule)
    && d == Derive(cfg.ruleOntology, es, item, d.rule)
  }

  // d is what its rule derives at its own position from everything known before it.
  ghost predicate Justified(log: seq<Observation>, cfg: Config, d: Derivation) {
    var k := d.entry.seqNo;
    1 <= k <= |log| && JustifiedFrom(cfg, Known(log, cfg, k - 1), ItemAt(log, k), d)
  }

  lemma StatedMember(log: seq<Observation>, n: nat, e: Entry)
    requires n <= |log|
    ensures e in Stated(log, n) <==>
      1 <= e.seqNo <= n && ObservedId(log[e.seqNo - 1]).Some? && e == ObservedEntry(ItemAt(log, e.seqNo))
  {
    if 1 <= e.seqNo <= n && ObservedId(log[e.seqNo - 1]).Some? && e == ObservedEntry(ItemAt(log, e.seqNo)) {
      assert ItemAt(log, e.seqNo) in Items(log, n);
    }
  }

  lemma NewDerivationMember(cfg: Config, es: set<Entry>, item: Item, d: Derivation)
    ensures d in NewDerivations(cfg, es, item) <==> JustifiedFrom(cfg, es, item, d)
    ensures d in NewDerivations(cfg, es, item) ==> d.entry.seqNo == item.seqNo
  {
  }

  lemma DerivationsStep(log: seq<Observation>, cfg: Config, n: nat)
    requires 1 <= n <= |log|
    ensures Derivations(log, cfg, n)
         == Derivations(log, cfg, n - 1) + NewDerivations(cfg, Known(log, cfg, n - 1), ItemAt(log, n))
  {
  }

  /** The history at n is exactly the derivations justified at positions up to n. */
  lemma {:induction false} DerivationMember(log: seq<Observation>, cfg: Config, n: nat, d: Derivation)
    requires n <= |log|
    ensures d in Derivations(log, cfg, n) <==> Justified(log, cfg, d) && d.entry.seqNo <= n
  {
    hide Stated, NewDerivations, JustifiedFrom;
    if n == 0 {
      assert Derivations(log, cfg, n) == {};
    } else {
      hide Derivations;
      DerivationMember(log, cfg, n - 1, d);
      NewDerivationMember(cfg, Known(log, cfg, n - 1), ItemAt(log, n), d);
      DerivationsStep(log, cfg, n);
    }
  }

  // The entries of the graph when the relationship projector stands at r and ds was derived.
  ghost function EntriesAt(log: seq<Observation>, r: nat, ds: set<Derivation>): set<Entry>
    requires r <= |log|
  {
    Stated(log, r) + DerivedEntries(ds)
  }

  ghost predicate AllJustified(log: seq<Observation>, cfg: Config, ds: set<Derivation>) {
    forall d | d in ds :: Justified(log, cfg, d)
  }

  // What a justified derivation looks like, without the history it was justified from.
  ghost predicate Shaped(ont: Ontology, log: seq<Observation>, d: Derivation) {
    var e := d.entry;
    && 1 <= e.seqNo <= |log|
    && e.obs == log[e.seqNo - 1]
    && Triggers(d.rule, e.obs)
    && e.rid == DerivedId(d.rule, e.obs)
    && e.targetType == e.obs.obj.value.etype
    && e.confidence == ConfidenceOf(d.rule)
    && e.evidence == d.triggerEvidence + d.supportEvidence
    && d.triggerEvidence == EvidenceIds(e.obs)
    && d.supports != {}
    && ValidEdge(ont, Output(d.rule), e.sourceType, e.targetType)
    && (forall sup | sup in d.supports :: Supports(d.rule, e.obs, sup))
  }

  lemma DeriveShaped(ont: Ontology, es: set<Entry>, item: Item, rule: RuleId, log: seq<Observation>)
    requires Fires(ont, es, item, rule)
    requires 1 <= item.seqNo <= |log| && item.obs == log[item.seqNo - 1]
    ensures Shaped(ont, log, Derive(ont, es, item, rule))
  {
    var e :| e in Basis(es, item, rule);
    assert e.rid in Derive(ont, es, item, rule).supports;
  }

  lemma JustifiedShaped(log: seq<Observation>, cfg: Config, d: Derivation)
    requires Justified(log, cfg, d)
    ensures Shaped(cfg.ruleOntology, log, d)
  {
    hide Derivations, Stated, Shaped, Derive, Fires;
    var k := d.entry.seqNo;
    DeriveShaped(cfg.ruleOntology, Known(log, cfg, k - 1), ItemAt(log, k), d.rule, log);
  }

  lemma JustifiedFunctional(log: seq<Observation>, cfg: Config, d: Derivation, d': Derivation)
    requires Justified(log, cfg, d) && Justified(log, cfg, d')
    requires d.rule == d'.rule && d.entry.seqNo == d'.entry.seqNo
    ensures d == d'
  {
    hide Derivations, Stated, Derive, Fires;
  }

  lemma EntryOrigin(cfg: Config, log: seq<Observation>, r: nat, ds: set<Derivation>, e: Entry)
    requires r <= |log| && (forall d | d in ds :: Shaped(cfg.ruleOntology, log, d))
    requires e in EntriesAt(log, r, ds)
    ensures 1 <= e.seqNo <= |log| && e.obs == log[e.seqNo - 1] && e.rid.tenant == e.obs.tenant
    ensures e.rid.provenance == Observed ==>
      ObservedId(e.obs).Some? && e.seqNo <= r && e == ObservedEntry(ItemAt(log, e.seqNo))
    ensures e.rid.provenance == Deterministic ==> exists d :: d in ds && d.entry == e && e.rid.rule == Some(d.rule)
  {
    StatedMember(log, r, e);
  }

  lemma AllShaped(log: seq<Observation>, cfg: Config, ds: set<Derivation>)
    requires AllJustified(log, cfg, ds)
    ensures forall d | d in ds :: Shaped(cfg.ruleOntology, log, d)
  {
    forall d | d in ds
      ensures Shaped(cfg.ruleOntology, log, d)
    {
      JustifiedShaped(log, cfg, d);
    }
  }

  lemma SamePosition(log: seq<Observation>, a: Entry, b: Entry)
    requires UniqueObservations(log) && 1 <= a.seqNo <= |log| && 1 <= b.seqNo <= |log|
    requires a.obs == log[a.seqNo - 1] && b.obs == log[b.seqNo - 1]
    requires a.obs.tenant == b.obs.tenant && a.obs.id == b.obs.id
    ensures a.seqNo == b.seqNo
  {
  }

  lemma EntriesIdentified(log: seq<Observation>, cfg: Config, r: nat, ds: set<Derivation>)
    requires r <= |log| && AllJustified(log, cfg, ds) && UniqueObservations(log)
    ensures Identified(EntriesAt(log, r, ds))
  {
    var es := EntriesAt(log, r, ds);
    AllShaped(log, cfg, ds);
    forall a, b | a in es && b in es && KeyOf(a) == KeyOf(b)
      ensures a == b
    {
      SameKeySameEntry(log, cfg, r, ds, a, b);
    }
  }

  lemma SameKeySameEntry(log: seq<Observation>, cfg: Config, r: nat, ds: set<Derivation>, a: Entry, b: Entry)
    requires r <= |log| && AllJustified(log, cfg, ds) && UniqueObservations(log)
    requires forall d | d in ds :: Shaped(cfg.ruleOntology, log, d)
    requires a in EntriesAt(log, r, ds) && b in EntriesAt(log, r, ds) && KeyOf(a) == KeyOf(b)
    ensures a == b
  {
    EntryOrigin(cfg, log, r, ds, a);
    EntryOrigin(cfg, log, r, ds, b);
    SamePosition(log, a, b);
    if a.rid.provenance == Deterministic {
      var d :| d in ds && d.entry == a && a.rid.rule == Some(d.rule);
      var d' :| d' in ds && d'.entry == b && b.rid.rule == Some(d'.rule);
      JustifiedFunctional(log, cfg, d, d');
    }
  }

  /* ----- The handler against the history ----- */

  ghost function RoleRowsOf(d: Derivation): set<RoleRow> {
    RoleRows(KeyOf(d.entry), d.triggerEvidence, TriggerRole) + RoleRows(KeyOf(d.entry), d.supportEvidence, SupportRole)
  }

  ghost function DerivationRowOf(d: Derivation): DerivationRow {
    DerivationRow(d.rule, d.entry.seqNo, d.entry.obs.eventTime, ConfidenceOf(d.rule))
  }

  // The three lineage tables hold the derivations ds and nothing else.
  ghost predicate LineageTablesExact(g: Graph, ds: set<Derivation>) {
    && g.derivations.Keys == (set d | d in ds :: KeyOf(d.entry))
    && (forall d | d in ds :: g.derivations[KeyOf(d.entry)] == DerivationRowOf(d))
    && g.supports == (set d, s | d in ds && s in d.supports :: SupportRow(KeyOf(d.entry), s))
    && g.roles == (set d, x | d in ds && x in RoleRowsOf(d) :: x)
  }

  /** The whole graph: the relationship projector stands at r, and ds has been derived. */
  ghost predicate GraphExact(g: Graph, log: seq<Observation>, r: nat, ds: set<Derivation>)
    requires r <= |log|
  {
    TablesExact(g, EntriesAt(log, r, ds)) && LineageTablesExact(g, ds)
  }

  lemma LineageTablesUnique(g: Graph, g': Graph, ds: set<Derivation>)
    requires LineageTablesExact(g, ds) && LineageTablesExact(g', ds)
    ensures g.derivations == g'.derivations && g.supports == g'.supports && g.roles == g'.roles
  {
    forall k | k in g.derivations
      ensures g.derivations[k] == g'.derivations[k]
    {
      var d :| d in ds && KeyOf(d.entry) == k;
    }
  }

  lemma GraphUnique(g: Graph, g': Graph, log: seq<Observation>, r: nat, ds: set<Derivation>)
    requires r <= |log| && GraphExact(g, log, r, ds) && GraphExact(g', log, r, ds)
    ensures g == g'
  {
    var es := EntriesAt(log, r, ds);
    assert TablesExact(g, es) && TablesExact(g', es) && LineageTablesExact(g, ds) && LineageTablesExact(g', ds);
    TablesUnique(g, g', es);
    LineageTablesUnique(g, g', ds);
  }

  // The entries a support query can see are those known before the trigger.
  lemma BasisBounded(log: seq<Observation>, cfg: Config, r: nat, ds: set<Derivation>, n: nat, rule: RuleId)
    requires 1 <= n <= r <= |log| && Triggers(rule, log[n - 1])
    requires ds >= Derivations(log, cfg, n - 1)
    requires forall d | d in ds && d.entry.seqNo < n :: d in Derivations(log, cfg, n - 1)
    ensures Basis(EntriesAt(log, r, ds), ItemAt(log, n), rule) == Basis(Known(log, cfg, n - 1), ItemAt(log, n), rule)
  {
    var es, es' := EntriesAt(log, r, ds), Known(log, cfg, n - 1);
    forall e: Entry | e.seqNo < n
      ensures e in es <==> e in es'
    {
      StatedMember(log, r, e);
      StatedMember(log, n - 1, e);
    }
  }

  ghost function CandidateOf(d: Derivation): Candidate {
    Candidate(d.rule, d.entry.rid, d.entry.sourceType, d.entry.targetType, d.supports, d.triggerEvidence, d.supportEvidence)
  }

  // The part of exactness that queries rely on.
  ghost predicate Readable(g: Graph, es: set<Entry>) {
    && (forall e | e in es :: e.rid in g.relationships && SameIdentity(g.relationships[e.rid], e))
    && (forall e | e in es :: KeyOf(e) in g.lineage && g.lineage[KeyOf(e)] == PointOf(e))
    && (forall k | k in g.lineage :: exists e :: e in es && KeyOf(e) == k)
  }

  lemma ExactReadable(g: Graph, es: set<Entry>)
    requires TablesExact(g, es)
    ensures Readable(g, es)
  {
    forall e | e in es
      ensures SameIdentity(g.relationships[e.rid], e)
    {
      assert RowExact(g.relationships[e.rid], EntriesOf(es, e.rid));
      assert e in EntriesOf(es, e.rid);
    }
  }

  lemma FactOrigin(g: Graph, es: set<Entry>, item: Item, rule: RuleId, k: LineageKey) returns (e: Entry)
    requires Readable(g, es) && Triggers(rule, item.obs)
    requires k in g.lineage && g.lineage[k].seqNo < item.seqNo && k.rid.tenant == item.obs.tenant
    requires k.rid in g.relationships && RowSupports(rule, item.obs, g.relationships[k.rid])
    ensures e in Basis(es, item, rule) && KeyOf(e) == k
  {
    e :| e in es && KeyOf(e) == k;
  }

  lemma FactsExact(g: Graph, es: set<Entry>, item: Item, rule: RuleId)
    requires Readable(g, es) && Triggers(rule, item.obs)
    ensures PriorFacts(g, item, rule) == set e | e in Basis(es, item, rule) :: e.rid
  {
    hide Triggers;
    var facts, basis := PriorFacts(g, item, rule), Basis(es, item, rule);
    forall rid | rid in facts
      ensures exists e :: e in basis && e.rid == rid
    {
      var k :| k in g.lineage && g.lineage[k].seqNo < item.seqNo && k.rid == rid
               && RowSupports(rule, item.obs, g.relationships[k.rid]);
      var e := FactOrigin(g, es, item, rule, k);
    }
    forall e | e in basis
      ensures e.rid in facts
    {
      assert KeyOf(e) in g.lineage;
    }
  }

  lemma FoundEvidence(g: Graph, log: seq<Observation>, es: set<Entry>, item: Item, rule: RuleId,
                      k: LineageKey, l: EvidenceLink)
    requires Readable(g, es) && Triggers(rule, item.obs) && UniqueObservations(log)
    requires forall e | e in es :: e.obs in log && e.rid.tenant == e.obs.tenant
    requires k in g.lineage && g.lineage[k].seqNo < item.seqNo && Supports(rule, item.obs, k.rid)
    requires l in EvidenceLinks(log) && l.tenant == item.obs.tenant && l.obsId == k.obsId
    ensures l.evidenceId in BasisEvidence(Basis(es, item, rule))
  {
    var e :| e in es && KeyOf(e) == k;
    assert e in Basis(es, item, rule);
    LinkOwner(log, e.obs, l);
  }

  lemma ContributedEvidence(g: Graph, log: seq<Observation>, es: set<Entry>, item: Item, rule: RuleId,
                            rids: set<RelationshipId>, e: Entry, x: string)
    requires Readable(g, es) && Triggers(rule, item.obs)
    requires e in Basis(es, item, rule) && e.obs in log && e.rid.tenant == e.obs.tenant && e.rid in rids
    requires x in EvidenceIds(e.obs)
    ensures x in PriorEvidence(g, EvidenceLinks(log), item, rids)
  {
    var l := EvidenceLink(e.obs.tenant, e.obs.id, x);
    assert l in EvidenceLinks(log);
    assert KeyOf(e) in g.lineage;
  }

  lemma EvidenceExactFor(g: Graph, log: seq<Observation>, es: set<Entry>, item: Item, rule: RuleId,
                         rids: set<RelationshipId>)
    requires Readable(g, es) && Triggers(rule, item.obs) && UniqueObservations(log)
    requires forall e | e in es :: e.obs in log && e.rid.tenant == e.obs.tenant
    requires rids == set e | e in Basis(es, item, rule) :: e.rid
    ensures PriorEvidence(g, EvidenceLinks(log), item, rids) == BasisEvidence(Basis(es, item, rule))
  {
    var basis, links := Basis(es, item, rule), EvidenceLinks(log);
    forall k, l | k in g.lineage && k.rid in rids && g.lineage[k].seqNo < item.seqNo
                  && l in links && l.tenant == item.obs.tenant && l.obsId == k.obsId
      ensures l.evidenceId in BasisEvidence(basis)
    {
      FoundEvidence(g, log, es, item, rule, k, l);
    }
    forall e, x | e in basis && x in EvidenceIds(e.obs)
      ensures x in PriorEvidence(g, links, item, rids)
    {
      ContributedEvidence(g, log, es, item, rule, rids, e, x);
    }
  }

  lemma LinkOwner(log: seq<Observation>, o: Observation, l: EvidenceLink)
    requires UniqueObservations(log) && o in log && l in EvidenceLinks(log) && l.tenant == o.tenant && l.obsId == o.id
    ensures l.evidenceId in EvidenceIds(o)
  {
    var p, x :| p in log && x in EvidenceIds(p) && l == EvidenceLink(p.tenant, p.id, x);
    var i :| 0 <= i < |log| && log[i] == o;
    var j :| 0 <= j < |log| && log[j] == p;
    assert i == j;
  }

  lemma SourceTypesExact(g: Graph, es: set<Entry>, basis: set<Entry>, facts: set<RelationshipId>)
    requires Readable(g, es) && basis <= es && facts == (set e | e in basis :: e.rid)
    ensures SourceTypesAgree(g, facts) <==> SourcesAgree(basis)
  {
    assert forall e | e in basis :: e.rid in facts;
    assert forall rid | rid in facts :: exists e :: e in basis && e.rid == rid;
  }

  lemma TargetTypesExact(g: Graph, es: set<Entry>, basis: set<Entry>, facts: set<RelationshipId>, t: EntityType)
    requires Readable(g, es) && basis <= es && facts == (set e | e in basis :: e.rid)
    ensures TargetTypesAre(g, facts, t) <==> TargetsAre(basis, t)
  {
    assert forall e | e in basis :: e.rid in facts;
    assert forall rid | rid in facts :: exists e :: e in basis && e.rid == rid;
  }

  lemma CommonType(g: Graph, es: set<Entry>, basis: set<Entry>, facts: set<RelationshipId>, item: Item)
    requires Readable(g, es) && basis <= es && facts == (set e | e in basis :: e.rid)
    requires basis != {} && SourceTypesAgree(g, facts)
    ensures facts != {} && BasisSourceType(basis, item, CorSeq002) == CommonSourceType(g, facts)
  {
    var e :| e in basis;
    assert e.rid in facts;
    assert forall b | b in basis :: b.rid in facts;
  }

  ghost predicate EvaluatedExactly(ont: Ontology, g: Graph, links: set<EvidenceLink>, es: set<Entry>, item: Item, rule: RuleId) {
    var r := Evaluate(ont, g, links, item, rule);
    && (r.Conflict? <==> Inconsistent(es, item, rule))
    && (!r.Conflict? ==> (r.Match? <==> Fires(ont, es, item, rule)))
    && (r.Match? ==> r.candidate == CandidateOf(Derive(ont, es, item, rule)))
  }

  lemma CandidateExact(ont: Ontology, g: Graph, links: set<EvidenceLink>, es: set<Entry>, item: Item, rule: RuleId)
    requires Fires(ont, es, item, rule)
    requires var facts := set e | e in Basis(es, item, rule) :: e.rid;
             PriorEvidence(g, links, item, facts) == BasisEvidence(Basis(es, item, rule))
    ensures MakeCandidate(g, links, item, rule, BasisSourceType(Basis(es, item, rule), item, rule),
                          set e | e in Basis(es, item, rule) :: e.rid)
            == CandidateOf(Derive(ont, es, item, rule))
  {
  }

  lemma Evaluate002Exact(ont: Ontology, g: Graph, links: set<EvidenceLink>, es: set<Entry>, item: Item)
    requires Readable(g, es) && Triggers(CorSeq002, item.obs)
    requires var basis := Basis(es, item, CorSeq002);
             && basis != {}
             && PriorFacts(g, item, CorSeq002) == (set e | e in basis :: e.rid)
             && PriorEvidence(g, links, item, set e | e in basis :: e.rid) == BasisEvidence(basis)
    ensures EvaluatedExactly(ont, g, links, es, item, CorSeq002)
  {
    hide PriorFacts, PriorEvidence, Basis, BasisEvidence, Supports, RowSupports, Readable, MakeCandidate, Derive,
      SourceTypesAgree, TargetTypesAre, SourcesAgree, TargetsAre;
    var basis, facts := Basis(es, item, CorSeq002), PriorFacts(g, item, CorSeq002);
    SourceTypesExact(g, es, basis, facts);
    TargetTypesExact(g, es, basis, facts, item.obs.obj.value.etype);
    var e :| e in basis;
    assert e.rid in facts;
    if SourceTypesAgree(g, facts) {
      CommonType(g, es, basis, facts, item);
      if Fires(ont, es, item, CorSeq002) {
        CandidateExact(ont, g, links, es, item, CorSeq002);
      }
    }
  }

  lemma Evaluate003Exact(ont: Ontology, g: Graph, links: set<EvidenceLink>, es: set<Entry>, item: Item)
    requires Readable(g, es) && Triggers(CorSeq003, item.obs)
    requires var basis := Basis(es, item, CorSeq003);
             && basis != {}
             && PriorFacts(g, item, CorSeq003) == (set e | e in basis :: e.rid)
             && PriorEvidence(g, links, item, set e | e in basis :: e.rid) == BasisEvidence(basis)
    ensures EvaluatedExactly(ont, g, links, es, item, CorSeq003)
  {
    hide PriorFacts, PriorEvidence, Basis, BasisEvidence, Supports, RowSupports, Readable, MakeCandidate, Derive;
    var basis, facts := Basis(es, item, CorSeq003), PriorFacts(g, item, CorSeq003);
    TargetTypesExact(g, es, basis, facts, item.obs.subject.etype);
    var e :| e in basis;
    assert e.rid in facts;
    if Fires(ont, es, item, CorSeq003) {
      CandidateExact(ont, g, links, es, item, CorSeq003);
    }
  }

  lemma Evaluate001Exact(ont: Ontology, g: Graph, links: set<EvidenceLink>, es: set<Entry>, item: Item)
    requires Readable(g, es) && Triggers(CorSeq001, item.obs)
    requires var basis := Basis(es, item, CorSeq001);
             && basis != {}
             && PriorFacts(g, item, CorSeq001) == (set e | e in basis :: e.rid)
             && PriorEvidence(g, links, item, set e | e in basis :: e.rid) == BasisEvidence(basis)
    ensures EvaluatedExactly(ont, g, links, es, item, CorSeq001)
  {
    hide Readable, ValidEdge, Supports;
    var basis, facts := Basis(es, item, CorSeq001), PriorFacts(g, item, CorSeq001);
    var e :| e in basis;
    assert e.rid in facts;
    if Fires(ont, es, item, CorSeq001) {
      CandidateExact(ont, g, links, es, item, CorSeq001);
    }
  }

  /** Evaluation is exact: a rule matches, conflicts or stays silent as its definition over the
      known entries says, and a match carries precisely the defined derivation. */
  lemma EvaluateExact(ont: Ontology, g: Graph, log: seq<Observation>, es: set<Entry>, item: Item, rule: RuleId)
    requires Readable(g, es) && UniqueObservations(log)
    requires forall e | e in es :: e.obs in log && e.rid.tenant == e.obs.tenant
    ensures EvaluatedExactly(ont, g, EvidenceLinks(log), es, item, rule)
  {
    var links := EvidenceLinks(log);
    if Triggers(rule, item.obs) {
      FactsExact(g, es, item, rule);
      EvidenceExactFor(g, log, es, item, rule, PriorFacts(g, item, rule));
      if Basis(es, item, rule) == {} {
        assert PriorFacts(g, item, rule) == {};
      } else {
        match rule
        case CorSeq001 => Evaluate001Exact(ont, g, links, es, item);
        case CorSeq002 => Evaluate002Exact(ont, g, links, es, item);
        case CorSeq003 => Evaluate003Exact(ont, g, links, es, item);
      }
    }
  }
}
