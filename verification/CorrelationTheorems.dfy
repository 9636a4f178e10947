/** Consequences of exactness: causality, grounding in observations, conservative rulesets and
    success on consistently typed logs. */
module CorrelationTheorems {
  import opened Domain
  import opened Spans
  import opened RelationshipGraph
  import opened CorrelationRules
  import opened CorrelationHistory
  import opened CorrelationExactness
  import Correlation = CorrelationProjection

  /* ----- Causality ----- */

  /** Every support of a derivation has lineage strictly before the trigger. */
  lemma SupportIsPrior(log: seq<Observation>, cfg: Config, d: Derivation, sup: RelationshipId) returns (e: Entry)
    requires Justified(log, cfg, d) && sup in d.supports
    ensures e in Known(log, cfg, d.entry.seqNo - 1) && e.rid == sup && e.seqNo < d.entry.seqNo
    ensures Supports(d.rule, d.entry.obs, sup)
  {
    hide Known, Fires;
    JustifiedShaped(log, cfg, d);
    var k := d.entry.seqNo;
    e :| e in Basis(Known(log, cfg, k - 1), ItemAt(log, k), d.rule) && e.rid == sup;
  }

  /** The support graph is well-founded and grounded: following supports backwards from any
      derivation ends, at a strictly earlier position, in a relationship an observation states. */
  lemma {:induction false} Grounded(log: seq<Observation>, cfg: Config, d: Derivation) returns (e: Entry)
    requires Justified(log, cfg, d)
    ensures 1 <= d.entry.seqNo <= |log|
    ensures e in Stated(log, d.entry.seqNo - 1) && e.rid.tenant == d.entry.rid.tenant
    decreases d.entry.seqNo
  {
    hide Justified, Stated, Derivations;
    JustifiedShaped(log, cfg, d);
    var sup :| sup in d.supports;
    var p := SupportIsPrior(log, cfg, d, sup);
    var k := d.entry.seqNo;
    if p in Stated(log, k - 1) {
      e := p;
    } else {
      var d' :| d' in Derivations(log, cfg, k - 1) && d'.entry == p;
      DerivationMember(log, cfg, k - 1, d');
      e := Grounded(log, cfg, d');
      StatedMember(log, d'.entry.seqNo - 1, e);
      StatedMember(log, k - 1, e);
    }
  }

  /* ----- Rulesets ----- */

  ghost function ByRules(ds: set<Derivation>, rules: seq<RuleId>): set<Derivation> {
    set d | d in ds && d.rule in rules
  }

  // A ruleset's rules read nothing a later rule derives.
  lemma ReadsOnlyEarlierRules(v: Ruleset, rule: RuleId, later: RuleId, o: Observation, sup: RelationshipId)
    requires rule in Rules(v) && later !in Rules(v) && Triggers(rule, o)
    requires sup.rtype == Output(later) && sup.provenance == Deterministic
    ensures !Supports(rule, o, sup)
  {
  }

  lemma SameBasisAcrossRulesets(log: seq<Observation>, cfg: Config, wide: Config, n: nat, rule: RuleId)
    requires 1 <= n <= |log| && rule in Rules(cfg.ruleset) && Triggers(rule, log[n - 1])
    requires Derivations(log, cfg, n - 1) == ByRules(Derivations(log, wide, n - 1), Rules(cfg.ruleset))
    ensures Basis(Known(log, cfg, n - 1), ItemAt(log, n), rule) == Basis(Known(log, wide, n - 1), ItemAt(log, n), rule)
  {
    hide Derivations, Stated, Rules, Supports, Justified;
    var es, ws := Known(log, cfg, n - 1), Known(log, wide, n - 1);
    forall e | e in ws && Supports(rule, log[n - 1], e.rid)
      ensures e in es
    {
      if e !in Stated(log, n - 1) {
        var d :| d in Derivations(log, wide, n - 1) && d.entry == e;
        DerivationMember(log, wide, n - 1, d);
        JustifiedShaped(log, wide, d);
        if d.rule !in Rules(cfg.ruleset) {
          ReadsOnlyEarlierRules(cfg.ruleset, rule, d.rule, log[n - 1], e.rid);
        }
        assert d in Derivations(log, cfg, n - 1);
      }
    }
    forall e | e in es
      ensures e in ws
    {
      if e !in Stated(log, n - 1) {
        var d :| d in Derivations(log, cfg, n - 1) && d.entry == e;
        assert d in Derivations(log, wide, n - 1);
      }
    }
  }

  ghost predicate Extends(wide: Config, cfg: Config) {
    && wide.ruleOntology == cfg.ruleOntology
    && forall rule | rule in Rules(cfg.ruleset) :: rule in Rules(wide.ruleset)
  }

  /** A later ruleset is conservative: it derives exactly what the earlier one derives by the
      earlier one's rules. */
  lemma {:induction false} RulesetsConservative(log: seq<Observation>, cfg: Config, wide: Config, n: nat)
    requires n <= |log| && Extends(wide, cfg)
    ensures Derivations(log, cfg, n) == ByRules(Derivations(log, wide, n), Rules(cfg.ruleset))
  {
    hide Known, Rules, Fires, Derive, JustifiedFrom, NewDerivations;
    if n == 0 {
      assert Derivations(log, cfg, 0) == {} == Derivations(log, wide, 0);
    } else {
      hide Derivations;
      RulesetsConservative(log, cfg, wide, n - 1);
      DerivationsStep(log, cfg, n);
      DerivationsStep(log, wide, n);
      NewDerivationsConservative(log, cfg, wide, n);
    }
  }

  lemma NewDerivationsConservative(log: seq<Observation>, cfg: Config, wide: Config, n: nat)
    requires 1 <= n <= |log| && Extends(wide, cfg)
    requires Derivations(log, cfg, n - 1) == ByRules(Derivations(log, wide, n - 1), Rules(cfg.ruleset))
    ensures NewDerivations(cfg, Known(log, cfg, n - 1), ItemAt(log, n))
         == ByRules(NewDerivations(wide, Known(log, wide, n - 1), ItemAt(log, n)), Rules(cfg.ruleset))
  {
    hide Derivations, Known, Rules, Fires, Derive, NewDerivations, Basis;
    var es, ws, item := Known(log, cfg, n - 1), Known(log, wide, n - 1), ItemAt(log, n);
    forall d: Derivation
      ensures d in NewDerivations(cfg, es, item) <==>
              d in ByRules(NewDerivations(wide, ws, item), Rules(cfg.ruleset))
    {
      NewDerivationMember(cfg, es, item, d);
      NewDerivationMember(wide, ws, item, d);
      if d.rule in Rules(cfg.ruleset) {
        if Triggers(d.rule, item.obs) {
          SameBasisAcrossRulesets(log, cfg, wide, n, d.rule);
        }
        SameBasis(cfg.ruleOntology, es, ws, item, d.rule);
      }
    }
  }

  /** On the stored tables: two graphs over one log, built under the two rulesets by runs that did
      not abort, hold the same relationship, lineage, evidence, derivation, support and evidence-role
      rows for every rule the two share. */
  lemma SharedRowsAgree(log: seq<Observation>, cfg: Config, wide: Config, r: nat, n: nat, g: Graph, w: Graph,
                        rid: RelationshipId, obsId: string)
    requires n <= r <= |log| && Extends(wide, cfg)
    requires GraphExact(g, log, r, Derivations(log, cfg, n)) && GraphExact(w, log, r, Derivations(log, wide, n))
    requires rid.provenance == Deterministic && rid.rule.Some? && rid.rule.value in Rules(cfg.ruleset)
    ensures rid in g.relationships <==> rid in w.relationships
    ensures rid in g.relationships ==> g.relationships[rid] == w.relationships[rid]
    ensures var k := LineageKey(rid, obsId);
      && (k in g.derivations <==> k in w.derivations)
      && (k in g.derivations ==> g.derivations[k] == w.derivations[k])
      && (forall sup :: SupportRow(k, sup) in g.supports <==> SupportRow(k, sup) in w.supports)
      && (forall x, role :: RoleRow(k, x, role) in g.roles <==> RoleRow(k, x, role) in w.roles)
      && (k in g.lineage <==> k in w.lineage)
      && (k in g.lineage ==> g.lineage[k] == w.lineage[k])
    ensures forall x :: var k := EvidenceKey(rid, x);
      (k in g.evidence <==> k in w.evidence) && (k in g.evidence ==> g.evidence[k] == w.evidence[k])
  {
    hide Derivations, Rules, Stated, RowExact, TablesExact;
    RulesetsConservative(log, cfg, wide, n);
    var ds, ws := Derivations(log, cfg, n), Derivations(log, wide, n);
    var es, fs := EntriesAt(log, r, ds), EntriesAt(log, r, ws);
    DerivedBySharedRule(log, wide, n, cfg.ruleset, rid);
    SameEntriesOf(log, cfg, wide, r, n, rid);
    RelationshipRowsAgree(g, w, es, fs, rid);
    LineageRowsAgree(g, w, ds, ws, LineageKey(rid, obsId));
    ObservedRowsAgree(g, w, es, fs, LineageKey(rid, obsId));
    forall x
      ensures var k := EvidenceKey(rid, x);
        (k in g.evidence <==> k in w.evidence) && (k in g.evidence ==> g.evidence[k] == w.evidence[k])
    {
      EvidenceRowsAgree(g, w, es, fs, EvidenceKey(rid, x));
    }
  }

  lemma ObservedRowsAgree(g: Graph, w: Graph, es: set<Entry>, fs: set<Entry>, k: LineageKey)
    requires TablesExact(g, es) && TablesExact(w, fs) && EntriesOf(es, k.rid) == EntriesOf(fs, k.rid)
    ensures k in g.lineage <==> k in w.lineage
    ensures k in g.lineage ==> g.lineage[k] == w.lineage[k]
  {
    LineageRowCarried(g, w, es, fs, k);
    LineageRowCarried(w, g, fs, es, k);
  }

  lemma LineageRowCarried(g: Graph, w: Graph, es: set<Entry>, fs: set<Entry>, k: LineageKey)
    requires TablesExact(g, es) && TablesExact(w, fs) && EntriesOf(es, k.rid) == EntriesOf(fs, k.rid)
    ensures k in g.lineage ==> k in w.lineage && w.lineage[k] == g.lineage[k]
  {
    hide RelationshipsExact, EvidenceExact;
    if k in g.lineage {
      var e :| e in es && KeyOf(e) == k;
      assert e in EntriesOf(fs, k.rid);
    }
  }

  lemma EvidenceRowsAgree(g: Graph, w: Graph, es: set<Entry>, fs: set<Entry>, k: EvidenceKey)
    requires TablesExact(g, es) && TablesExact(w, fs) && EntriesOf(es, k.rid) == EntriesOf(fs, k.rid)
    ensures k in g.evidence <==> k in w.evidence
    ensures k in g.evidence ==> g.evidence[k] == w.evidence[k]
  {
    EvidenceRowCarried(g, w, es, fs, k);
    EvidenceRowCarried(w, g, fs, es, k);
  }

  lemma EvidenceRowCarried(g: Graph, w: Graph, es: set<Entry>, fs: set<Entry>, k: EvidenceKey)
    requires TablesExact(g, es) && TablesExact(w, fs) && EntriesOf(es, k.rid) == EntriesOf(fs, k.rid)
    ensures k in g.evidence ==> k in w.evidence && w.evidence[k] == g.evidence[k]
  {
    hide RelationshipsExact, LineageExact, Covers;
    if k in g.evidence {
      SameEvidenceEntries(es, fs, k);
      PointsCovered(g.evidence[k], Points(EvidenceEntriesOf(es, k)));
      var e :| e in EvidenceEntriesOf(fs, k);
      assert k in w.evidence;
      CoversUnique(g.evidence[k], w.evidence[k], Points(EvidenceEntriesOf(es, k)));
    }
  }

  lemma SameEvidenceEntries(es: set<Entry>, fs: set<Entry>, k: EvidenceKey)
    requires EntriesOf(es, k.rid) == EntriesOf(fs, k.rid)
    ensures EvidenceEntriesOf(es, k) == EvidenceEntriesOf(fs, k)
  {
    forall e: Entry
      ensures e in EvidenceEntriesOf(es, k) <==> e in EvidenceEntriesOf(fs, k)
    {
      assert e in EntriesOf(es, k.rid) <==> e in EntriesOf(fs, k.rid);
    }
  }

  lemma PointsCovered(s: Span, pts: set<Point>)
    requires Covers(s, pts)
    ensures pts != {}
  {
  }

  // Entries of a shared rule's relationship come from derivations by that rule.
  lemma DerivedBySharedRule(log: seq<Observation>, wide: Config, n: nat, v: Ruleset, rid: RelationshipId)
    requires n <= |log| && rid.rule.Some? && rid.rule.value in Rules(v)
    ensures forall d | d in Derivations(log, wide, n) && d.entry.rid == rid :: d.rule in Rules(v)
  {
    hide Derivations, Rules, Justified;
    forall d | d in Derivations(log, wide, n) && d.entry.rid == rid
      ensures d.rule in Rules(v)
    {
      DerivationMember(log, wide, n, d);
      JustifiedShaped(log, wide, d);
    }
  }

  lemma SameEntriesOf(log: seq<Observation>, cfg: Config, wide: Config, r: nat, n: nat, rid: RelationshipId)
    requires n <= r <= |log| && rid.provenance == Deterministic
    requires Derivations(log, cfg, n) == ByRules(Derivations(log, wide, n), Rules(cfg.ruleset))
    requires forall d | d in Derivations(log, wide, n) && d.entry.rid == rid :: d.rule in Rules(cfg.ruleset)
    ensures EntriesOf(EntriesAt(log, r, Derivations(log, cfg, n)), rid)
         == EntriesOf(EntriesAt(log, r, Derivations(log, wide, n)), rid)
  {
    hide Derivations, Rules, Stated;
    var ds, ws := Derivations(log, cfg, n), Derivations(log, wide, n);
    forall e: Entry | e.rid == rid
      ensures e in EntriesAt(log, r, ds) <==> e in EntriesAt(log, r, ws)
    {
      StatedObserved(log, r, e);
      if e in DerivedEntries(ds) {
        var d :| d in ds && d.entry == e;
        assert d in ws;
      }
      if e in DerivedEntries(ws) {
        var d :| d in ws && d.entry == e;
        assert d in ds;
      }
    }
  }

  lemma RelationshipRowsAgree(g: Graph, w: Graph, es: set<Entry>, fs: set<Entry>, rid: RelationshipId)
    requires TablesExact(g, es) && TablesExact(w, fs) && EntriesOf(es, rid) == EntriesOf(fs, rid)
    ensures rid in g.relationships <==> rid in w.relationships
    ensures rid in g.relationships ==> g.relationships[rid] == w.relationships[rid]
  {
    hide RowExact, LineageExact, EvidenceExact;
    RelationshipKeys(g.relationships, es);
    RelationshipKeys(w.relationships, fs);
    if rid in g.relationships {
      var e :| e in es && e.rid == rid;
      assert e in EntriesOf(fs, rid);
      RowUnique(g.relationships[rid], w.relationships[rid], EntriesOf(es, rid));
    }
    if rid in w.relationships {
      var e :| e in fs && e.rid == rid;
      assert e in EntriesOf(es, rid);
    }
  }

  lemma LineageRowsAgree(g: Graph, w: Graph, ds: set<Derivation>, ws: set<Derivation>, k: LineageKey)
    requires LineageTablesExact(g, ds) && LineageTablesExact(w, ws)
    requires ds <= ws && forall d | d in ws && KeyOf(d.entry) == k :: d in ds
    ensures k in g.derivations <==> k in w.derivations
    ensures k in g.derivations ==> g.derivations[k] == w.derivations[k]
    ensures forall sup :: SupportRow(k, sup) in g.supports <==> SupportRow(k, sup) in w.supports
    ensures forall x, role :: RoleRow(k, x, role) in g.roles <==> RoleRow(k, x, role) in w.roles
  {
    hide DerivationRowOf;
    if k in w.derivations {
      var d :| d in ws && KeyOf(d.entry) == k;
    }
  }

  /* ----- Endpoints come from observations ----- */

  datatype TypedRef = TypedRef(tenant: string, id: string, etype: EntityType)

  function RefsOf(o: Observation): set<TypedRef> {
    {TypedRef(o.tenant, o.subject.id, o.subject.etype)}
    + (if o.obj.Some? then {TypedRef(o.tenant, o.obj.value.id, o.obj.value.etype)} else {})
  }

  // The entity references of the first n observations.
  ghost function Refs(log: seq<Observation>, n: nat): set<TypedRef>
    requires n <= |log|
  {
    set it, ref | it in Items(log, n) && ref in RefsOf(it.obs) :: ref
  }

  lemma RefsGrow(log: seq<Observation>, m: nat, n: nat)
    requires m <= n <= |log|
    ensures Refs(log, m) <= Refs(log, n)
  {
  }

  lemma RefAt(log: seq<Observation>, k: nat, n: nat, ref: TypedRef)
    requires 1 <= k <= n <= |log| && ref in RefsOf(log[k - 1])
    ensures ref in Refs(log, n)
  {
    assert ItemAt(log, k) in Items(log, n);
  }

  function SourceRef(e: Entry): TypedRef { TypedRef(e.rid.tenant, e.rid.source, e.sourceType) }

  function TargetRef(e: Entry): TypedRef { TypedRef(e.rid.tenant, e.rid.target, e.targetType) }

  /** Both endpoints of every relationship, with the types it records, were referenced by an
      observation no later than the entry: also the attack source of a derived compromise, which
      its own trigger need not mention. */
  lemma {:induction false} EndpointsReferenced(log: seq<Observation>, cfg: Config, r: nat, n: nat, e: Entry)
    requires n <= |log| && r <= |log|
    requires e in EntriesAt(log, r, Derivations(log, cfg, n))
    ensures 1 <= e.seqNo <= |log|
    ensures SourceRef(e) in Refs(log, e.seqNo) && TargetRef(e) in Refs(log, e.seqNo)
    decreases e.seqNo, 1
  {
    hide Derivations, Stated, Justified, Refs;
    if e in Stated(log, r) {
      StatedMember(log, r, e);
      RefAt(log, e.seqNo, e.seqNo, SourceRef(e));
      RefAt(log, e.seqNo, e.seqNo, TargetRef(e));
    } else {
      var d :| d in Derivations(log, cfg, n) && d.entry == e;
      DerivationMember(log, cfg, n, d);
      DerivedEndpoints(log, cfg, d);
    }
  }

  lemma {:induction false} DerivedEndpoints(log: seq<Observation>, cfg: Config, d: Derivation)
    requires Justified(log, cfg, d)
    ensures 1 <= d.entry.seqNo <= |log|
    ensures SourceRef(d.entry) in Refs(log, d.entry.seqNo) && TargetRef(d.entry) in Refs(log, d.entry.seqNo)
    decreases d.entry.seqNo, 0
  {
    hide Refs, Derivations, Stated, Fires, Derive, JustifiedFrom;
    JustifiedShaped(log, cfg, d);
    var e := d.entry;
    var k := e.seqNo;
    SourceOfDerived(log, cfg, d);
    if d.rule == CorSeq002 {
      var b :| b in Basis(Known(log, cfg, k - 1), ItemAt(log, k), d.rule) && b.sourceType == e.sourceType;
      EndpointsReferenced(log, cfg, k - 1, k - 1, b);
      RefsGrow(log, b.seqNo, k);
    } else {
      RefAt(log, k, k, SourceRef(e));
    }
    RefAt(log, k, k, TargetRef(e));
  }

  lemma SourceOfDerived(log: seq<Observation>, cfg: Config, d: Derivation)
    requires Justified(log, cfg, d)
    ensures var basis := Basis(Known(log, cfg, d.entry.seqNo - 1), ItemAt(log, d.entry.seqNo), d.rule);
      && (d.rule == CorSeq002 ==> exists b :: b in basis && b.sourceType == d.entry.sourceType)
      && (d.rule != CorSeq002 ==> d.entry.sourceType == d.entry.obs.subject.etype)
  {
    hide Known, Basis;
  }

  /* ----- Consistently typed logs ----- */

  // Within a tenant, an entity id keeps one type over the first n observations.
  ghost predicate OneType(log: seq<Observation>, n: nat)
    requires n <= |log|
  {
    forall a, b | a in Refs(log, n) && b in Refs(log, n) && a.tenant == b.tenant && a.id == b.id :: a == b
  }

  lemma KnownTypes(log: seq<Observation>, cfg: Config, n: nat, e: Entry)
    requires n <= |log| && e in Known(log, cfg, n)
    ensures SourceRef(e) in Refs(log, n) && TargetRef(e) in Refs(log, n) && e.seqNo <= n
  {
    hide Derivations, Stated, Refs;
    EndpointsReferenced(log, cfg, n, n, e);
    KnownBounded(log, cfg, n, e);
    RefsGrow(log, e.seqNo, n);
  }

  lemma KnownBounded(log: seq<Observation>, cfg: Config, n: nat, e: Entry)
    requires n <= |log| && e in Known(log, cfg, n)
    ensures e.seqNo <= n
  {
    hide Derivations, Stated;
    StatedMember(log, n, e);
    if e !in Stated(log, n) {
      var d :| d in Derivations(log, cfg, n) && d.entry == e;
      DerivationMember(log, cfg, n, d);
    }
  }

  lemma OneTypeBasis(log: seq<Observation>, cfg: Config, n: nat, rule: RuleId)
    requires 1 <= n <= |log| && OneType(log, n)
    ensures !Inconsistent(Known(log, cfg, n - 1), ItemAt(log, n), rule)
  {
    hide Known, Refs;
    var es, item := Known(log, cfg, n - 1), ItemAt(log, n);
    if Triggers(rule, item.obs) {
      var o := item.obs;
      forall b | b in Basis(es, item, rule)
        ensures SourceRef(b) in Refs(log, n) && TargetRef(b) in Refs(log, n)
      {
        KnownTypes(log, cfg, n - 1, b);
        RefsGrow(log, n - 1, n);
      }
      RefAt(log, n, n, TypedRef(o.tenant, o.subject.id, o.subject.etype));
      RefAt(log, n, n, TypedRef(o.tenant, o.obj.value.id, o.obj.value.etype));
    }
  }

  /** On a log where each entity id keeps one type, the correlation handler raises, once the relationship
      projector has reached the item, only if its registry refuses what the rules derive. */
  lemma OneTypeSucceeds(cfg: Config, log: seq<Observation>, r: nat, n: nat, g: Graph, relationshipCheckpoint: nat)
    requires 1 <= n <= r <= |log| && UniqueObservations(log) && OneType(log, n)
    requires GraphExact(g, log, r, Derivations(log, cfg, n - 1))
    ensures Correlation.Step(cfg, g, EvidenceLinks(log), relationshipCheckpoint, ItemAt(log, n)).Done? <==>
      relationshipCheckpoint >= n && Permitted(cfg, log, n)
  {
    hide Derivations, Known, Refs, Fired, Inconsistent, GraphExact, Justified, Permitted;
    var es, item, rules := Known(log, cfg, n - 1), ItemAt(log, n), Rules(cfg.ruleset);
    forall i | 0 <= i < |rules|
      ensures !Inconsistent(es, item, rules[i])
    {
      OneTypeBasis(log, cfg, n, rules[i]);
    }
    FiredIsNew(log, cfg, n);
    forall d | d in Fired(cfg.ruleOntology, es, item, rules)
      ensures Agrees(es, d)
    {
      DerivedEndpoints(log, cfg, d);
      OneTypeAgrees(log, cfg, n, d);
    }
    StepSucceeds(cfg, log, r, n, g, relationshipCheckpoint);
  }

  lemma OneTypeAgrees(log: seq<Observation>, cfg: Config, n: nat, d: Derivation)
    requires 1 <= n <= |log| && OneType(log, n)
    requires SourceRef(d.entry) in Refs(log, n) && TargetRef(d.entry) in Refs(log, n)
    ensures Agrees(Known(log, cfg, n - 1), d)
  {
    hide Known, Refs;
    forall e | e in Known(log, cfg, n - 1) && e.rid == d.entry.rid
      ensures SameTypes(e, d.entry)
    {
      KnownTypes(log, cfg, n - 1, e);
      RefsGrow(log, n - 1, n);
    }
  }
}
