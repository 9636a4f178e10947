/** The correlation handler writes exactly its recursively defined history, and raises only when
    the log types an entity in two ways. */
module CorrelationExactness {
  import opened Domain
  import opened Spans
  import opened RelationshipGraph
  import opened CorrelationRules
  import opened CorrelationHistory
  import Correlation = CorrelationProjection

  /* ----- One derivation ----- */

  lemma CandidateEntry(cfg: Config, log: seq<Observation>, d: Derivation, item: Item)
    requires Shaped(cfg.ruleOntology, log, d) && d.entry.seqNo == item.seqNo && d.entry.obs == item.obs
    ensures Correlation.EntryOf(item, CandidateOf(d)) == d.entry
    ensures Correlation.RowOf(item, d.rule) == DerivationRowOf(d)
  {
  }

  lemma DerivedPlus(log: seq<Observation>, r: nat, ds: set<Derivation>, d: Derivation)
    requires r <= |log|
    ensures EntriesAt(log, r, ds + {d}) == EntriesAt(log, r, ds) + {d.entry}
  {
    forall e | e in DerivedEntries(ds) + {d.entry}
      ensures e in DerivedEntries(ds + {d})
    {
      if e in DerivedEntries(ds) {
        var x :| x in ds && x.entry == e;
        assert x in ds + {d};
      } else {
        assert d in ds + {d};
      }
    }
  }

  lemma SupportsPlus(ds: set<Derivation>, d: Derivation)
    ensures (set x, s | x in ds + {d} && s in x.supports :: SupportRow(KeyOf(x.entry), s))
         == (set x, s | x in ds && s in x.supports :: SupportRow(KeyOf(x.entry), s))
            + Correlation.SupportRows(KeyOf(d.entry), d.supports)
  {
    var all := ds + {d};
    forall x, s | x in ds && s in x.supports
      ensures SupportRow(KeyOf(x.entry), s) in (set x, s | x in all && s in x.supports :: SupportRow(KeyOf(x.entry), s))
    {
      assert x in all;
    }
    assert d in all;
  }

  lemma RolesPlus(ds: set<Derivation>, d: Derivation)
    ensures (set x, w | x in ds + {d} && w in RoleRowsOf(x) :: w)
         == (set x, w | x in ds && w in RoleRowsOf(x) :: w) + RoleRowsOf(d)
  {
    hide RoleRowsOf;
    var all := ds + {d};
    forall x, w | x in ds && w in RoleRowsOf(x)
      ensures w in (set x, w | x in all && w in RoleRowsOf(x) :: w)
    {
      assert x in all;
    }
    assert d in all;
  }

  lemma WriteLineageExact(g: Graph, ds: set<Derivation>, d: Derivation, item: Item)
    requires LineageTablesExact(g, ds)
    requires Correlation.EntryOf(item, CandidateOf(d)) == d.entry
    requires Correlation.RowOf(item, d.rule) == DerivationRowOf(d)
    requires forall x | x in ds && KeyOf(x.entry) == KeyOf(d.entry) :: x == d
    ensures LineageTablesExact(Correlation.WriteLineage(g, item, CandidateOf(d)), ds + {d})
  {
    hide DerivationRowOf;
    var g', all := Correlation.WriteLineage(g, item, CandidateOf(d)), ds + {d};
    SupportsPlus(ds, d);
    RolesPlus(ds, d);
    assert d in all;
    assert g'.derivations.Keys == set x | x in all :: KeyOf(x.entry) by {
      forall k | k in g.derivations
        ensures k in set x | x in all :: KeyOf(x.entry)
      {
        var x :| x in ds && KeyOf(x.entry) == k;
        assert x in all;
      }
    }
    assert g'.roles == g.roles + RoleRowsOf(d);
  }

  lemma UniqueKey(log: seq<Observation>, cfg: Config, x: Derivation, d: Derivation)
    requires UniqueObservations(log) && Justified(log, cfg, x) && Justified(log, cfg, d)
    requires KeyOf(x.entry) == KeyOf(d.entry)
    ensures x == d
  {
    hide Justified;
    JustifiedShaped(log, cfg, x);
    JustifiedShaped(log, cfg, d);
    SamePosition(log, x.entry, d.entry);
    JustifiedFunctional(log, cfg, x, d);
  }

  /** Persisting a justified candidate adds that derivation, and nothing else, to the graph. */
  lemma PersistExact(log: seq<Observation>, cfg: Config, r: nat, ds: set<Derivation>, g: Graph, d: Derivation, item: Item)
    requires r <= |log| && UniqueObservations(log)
    requires GraphExact(g, log, r, ds) && AllJustified(log, cfg, ds) && Justified(log, cfg, d)
    requires d.entry.seqNo == item.seqNo && d.entry.obs == item.obs
    requires Correlation.Persist(cfg.ontology, g, item, CandidateOf(d)).Some?
    ensures GraphExact(Correlation.Persist(cfg.ontology, g, item, CandidateOf(d)).value, log, r, ds + {d})
  {
    hide Justified, TablesExact, LineageTablesExact, EntriesAt, Shaped, Identified;
    var es := EntriesAt(log, r, ds);
    JustifiedShaped(log, cfg, d);
    CandidateEntry(cfg, log, d, item);
    DerivedPlus(log, r, ds, d);
    EntriesIdentified(log, cfg, r, ds + {d});
    RecordExact(g, es, d.entry);
    forall x | x in ds && KeyOf(x.entry) == KeyOf(d.entry)
      ensures x == d
    {
      UniqueKey(log, cfg, x, d);
    }
    var g1 := Record(g, d.entry).value;
    LineageUntouched(g, g1, ds);
    WriteLineageExact(g1, ds, d, item);
    AggregatesUntouched(g1, item, CandidateOf(d), es + {d.entry});
  }

  lemma LineageUntouched(g: Graph, g1: Graph, ds: set<Derivation>)
    requires LineageTablesExact(g, ds)
    requires g1.derivations == g.derivations && g1.supports == g.supports && g1.roles == g.roles
    ensures LineageTablesExact(g1, ds)
  {
  }

  lemma AggregatesUntouched(g: Graph, item: Item, c: Correlation.Candidate, es: set<Entry>)
    requires TablesExact(g, es)
    ensures TablesExact(Correlation.WriteLineage(g, item, c), es)
  {
  }

  /* ----- All the rules at one item ----- */

  // The derivations the rules make of an item, in evaluation order.
  ghost function Fired(ont: Ontology, es: set<Entry>, item: Item, rules: seq<RuleId>): seq<Derivation> {
    if rules == [] then []
    else
      var rule := rules[|rules| - 1];
      Fired(ont, es, item, rules[..|rules| - 1])
      + (if Fires(ont, es, item, rule) then [Derive(ont, es, item, rule)] else [])
  }

  ghost function CandidatesOf(ds: seq<Derivation>): seq<Correlation.Candidate> {
    seq(|ds|, i requires 0 <= i < |ds| => CandidateOf(ds[i]))
  }

  ghost predicate AnyInconsistent(es: set<Entry>, item: Item, rules: seq<RuleId>) {
    exists i :: 0 <= i < |rules| && Inconsistent(es, item, rules[i])
  }

  lemma {:induction false} EvaluateAllExact(ont: Ontology, g: Graph, log: seq<Observation>, es: set<Entry>, item: Item,
                                            rules: seq<RuleId>)
    requires Readable(g, es) && UniqueObservations(log)
    requires forall e | e in es :: e.obs in log && e.rid.tenant == e.obs.tenant
    ensures var all := Correlation.EvaluateAll(ont, g, EvidenceLinks(log), item, rules);
      && (all.None? <==> AnyInconsistent(es, item, rules))
      && (all.Some? ==> all.value == CandidatesOf(Fired(ont, es, item, rules)))
  {
    hide Readable, Correlation.Evaluate, Fires, Inconsistent, Derive, EvidenceLinks;
    if rules != [] {
      var init, rule := rules[..|rules| - 1], rules[|rules| - 1];
      assert forall i | 0 <= i < |init| :: init[i] == rules[i];
      EvaluateAllExact(ont, g, log, es, item, init);
      EvaluateExact(ont, g, log, es, item, rule);
    }
  }

  lemma {:induction false} FiredMembers(ont: Ontology, es: set<Entry>, item: Item, rules: seq<RuleId>)
    ensures forall d :: d in Fired(ont, es, item, rules) <==>
      d.rule in rules && Fires(ont, es, item, d.rule) && d == Derive(ont, es, item, d.rule)
  {
    hide Fires;
    if rules != [] {
      var init, rule := rules[..|rules| - 1], rules[|rules| - 1];
      assert rules == init + [rule];
      FiredMembers(ont, es, item, init);
    }
  }

  // A rule reads the known entries only through its basis.
  lemma SameBasis(ont: Ontology, es: set<Entry>, es': set<Entry>, item: Item, rule: RuleId)
    requires Triggers(rule, item.obs) ==> Basis(es, item, rule) == Basis(es', item, rule)
    ensures Fires(ont, es, item, rule) <==> Fires(ont, es', item, rule)
    ensures Fires(ont, es, item, rule) ==> Derive(ont, es, item, rule) == Derive(ont, es', item, rule)
    ensures Inconsistent(es, item, rule) <==> Inconsistent(es', item, rule)
  {
    hide Basis;
  }

  lemma {:induction false} SameFired(ont: Ontology, es: set<Entry>, es': set<Entry>, item: Item, rules: seq<RuleId>)
    requires forall rule: RuleId | Triggers(rule, item.obs) :: Basis(es, item, rule) == Basis(es', item, rule)
    ensures Fired(ont, es, item, rules) == Fired(ont, es', item, rules)
    ensures AnyInconsistent(es, item, rules) <==> AnyInconsistent(es', item, rules)
  {
    hide Basis, Fires, Derive, Inconsistent;
    if rules != [] {
      var init, rule := rules[..|rules| - 1], rules[|rules| - 1];
      SameFired(ont, es, es', item, init);
      SameBasis(ont, es, es', item, rule);
    }
    forall i | 0 <= i < |rules|
      ensures Inconsistent(es, item, rules[i]) <==> Inconsistent(es', item, rules[i])
    {
      SameBasis(ont, es, es', item, rules[i]);
    }
  }

  ghost function DerivationSet(ds: seq<Derivation>): set<Derivation> {
    set d | d in ds
  }

  lemma {:induction false} PersistAllExact(log: seq<Observation>, cfg: Config, r: nat, ds: set<Derivation>, g: Graph,
                                           fired: seq<Derivation>, item: Item)
    requires r <= |log| && UniqueObservations(log)
    requires GraphExact(g, log, r, ds) && AllJustified(log, cfg, ds)
    requires forall d | d in fired :: Justified(log, cfg, d) && d.entry.seqNo == item.seqNo && d.entry.obs == item.obs
    requires Correlation.PersistAll(cfg.ontology, g, item, CandidatesOf(fired)).Some?
    ensures GraphExact(Correlation.PersistAll(cfg.ontology, g, item, CandidatesOf(fired)).value, log, r,
                       ds + DerivationSet(fired))
  {
    hide Justified, GraphExact, Correlation.Persist;
    if fired == [] {
      assert ds + DerivationSet(fired) == ds;
    } else {
      var init, d := fired[..|fired| - 1], fired[|fired| - 1];
      assert fired == init + [d];
      var cs := CandidatesOf(fired);
      assert cs[..|cs| - 1] == CandidatesOf(init);
      PersistAllExact(log, cfg, r, ds, g, init, item);
      var g1 := Correlation.PersistAll(cfg.ontology, g, item, CandidatesOf(init)).value;
      PersistExact(log, cfg, r, ds + DerivationSet(init), g1, d, item);
      assert ds + DerivationSet(init) + {d} == ds + DerivationSet(fired);
    }
  }

  lemma KnownOrigin(log: seq<Observation>, cfg: Config, r: nat, n: nat)
    requires n <= |log| && r <= |log|
    ensures AllJustified(log, cfg, Derivations(log, cfg, n))
    ensures forall e | e in EntriesAt(log, r, Derivations(log, cfg, n)) :: e.obs in log && e.rid.tenant == e.obs.tenant
  {
    hide Derivations, Justified, EntriesAt, Shaped;
    var ds := Derivations(log, cfg, n);
    forall d | d in ds
      ensures Justified(log, cfg, d)
    {
      DerivationMember(log, cfg, n, d);
    }
    AllShaped(log, cfg, ds);
    forall e | e in EntriesAt(log, r, ds)
      ensures e.obs in log && e.rid.tenant == e.obs.tenant
    {
      EntryOrigin(cfg, log, r, ds, e);
    }
  }

  // Whatever the relationship projector has done beyond n, the rules fire at n as they do on the
  // entries known before n.
  lemma LiveFired(log: seq<Observation>, cfg: Config, r: nat, n: nat, rules: seq<RuleId>)
    requires 1 <= n <= r <= |log|
    ensures var live, known := EntriesAt(log, r, Derivations(log, cfg, n - 1)), Known(log, cfg, n - 1);
      && Fired(cfg.ruleOntology, live, ItemAt(log, n), rules) == Fired(cfg.ruleOntology, known, ItemAt(log, n), rules)
      && (AnyInconsistent(live, ItemAt(log, n), rules) <==> AnyInconsistent(known, ItemAt(log, n), rules))
  {
    hide Derivations, EntriesAt, Known, Basis;
    var live, known := EntriesAt(log, r, Derivations(log, cfg, n - 1)), Known(log, cfg, n - 1);
    forall rule: RuleId | Triggers(rule, ItemAt(log, n).obs)
      ensures Basis(live, ItemAt(log, n), rule) == Basis(known, ItemAt(log, n), rule)
    {
      BasisBounded(log, cfg, r, Derivations(log, cfg, n - 1), n, rule);
    }
    SameFired(cfg.ruleOntology, live, known, ItemAt(log, n), rules);
  }

  lemma FiredIsNew(log: seq<Observation>, cfg: Config, n: nat)
    requires 1 <= n <= |log|
    ensures var fired := Fired(cfg.ruleOntology, Known(log, cfg, n - 1), ItemAt(log, n), Rules(cfg.ruleset));
      && Derivations(log, cfg, n) == Derivations(log, cfg, n - 1) + DerivationSet(fired)
      && (forall d | d in fired :: Justified(log, cfg, d) && d.entry.seqNo == n && d.entry.obs == log[n - 1]
                                   && d.rule in Rules(cfg.ruleset))
  {
    hide Derivations, Known, Fires;
    var es, item, rules := Known(log, cfg, n - 1), ItemAt(log, n), Rules(cfg.ruleset);
    var fired := Fired(cfg.ruleOntology, es, item, rules);
    FiredMembers(cfg.ruleOntology, es, item, rules);
    DerivationsStep(log, cfg, n);
    assert DerivationSet(fired) == NewDerivations(cfg, es, item);
  }

  /** The correlation handler is exact. On a graph where the relationship projector stands anywhere
      at or beyond n, a successful step at n turns the history at n - 1 into the history at n:
      the later relationship rows and the later growth of a support's lineage change nothing. */
  lemma StepExact(cfg: Config, log: seq<Observation>, r: nat, n: nat, g: Graph, relationshipCheckpoint: nat)
    requires 1 <= n <= r <= |log| && UniqueObservations(log)
    requires GraphExact(g, log, r, Derivations(log, cfg, n - 1))
    requires Correlation.Step(cfg, g, EvidenceLinks(log), relationshipCheckpoint, ItemAt(log, n)).Done?
    ensures GraphExact(Correlation.Step(cfg, g, EvidenceLinks(log), relationshipCheckpoint, ItemAt(log, n)).state,
                       log, r, Derivations(log, cfg, n))
  {
    hide Derivations, Known, EntriesAt, Fired, Correlation.PersistAll, Correlation.EvaluateAll, LineageTablesExact,
      TablesExact, Justified, EvidenceLinks, AnyInconsistent, Readable;
    var ds := Derivations(log, cfg, n - 1);
    var live, item, rules := EntriesAt(log, r, ds), ItemAt(log, n), Rules(cfg.ruleset);
    KnownOrigin(log, cfg, r, n - 1);
    ExactReadable(g, live);
    EvaluateAllExact(cfg.ruleOntology, g, log, live, item, rules);
    LiveFired(log, cfg, r, n, rules);
    FiredIsNew(log, cfg, n);
    PersistAllExact(log, cfg, r, ds, g, Fired(cfg.ruleOntology, live, item, rules), item);
  }

  /* ----- When the handler raises ----- */

  ghost predicate SameTypes(a: Entry, b: Entry) {
    a.sourceType == b.sourceType && a.targetType == b.targetType
  }

  // Earlier entries of the derived relationship have its endpoint types.
  ghost predicate Agrees(es: set<Entry>, d: Derivation) {
    forall e | e in es && e.rid == d.entry.rid :: SameTypes(e, d.entry)
  }

  lemma RecordSucceeds(g: Graph, es: set<Entry>, d: Derivation)
    requires TablesExact(g, es)
    ensures Record(g, d.entry).Some? <==> Agrees(es, d)
  {
    hide RowExact, LineageExact, EvidenceExact, Agrees, SameIdentity;
    RelationshipKeys(g.relationships, es);
    var rid := d.entry.rid;
    if rid in g.relationships {
      var e :| e in es && e.rid == rid;
      RowTypes(g.relationships[rid], es, d, e);
    } else {
      NoEntries(es, d);
    }
  }

  lemma NoEntries(es: set<Entry>, d: Derivation)
    requires forall e | e in es :: e.rid != d.entry.rid
    ensures Agrees(es, d)
  {
  }

  lemma RowTypes(row: RelationshipRow, es: set<Entry>, d: Derivation, e: Entry)
    requires RowExact(row, EntriesOf(es, d.entry.rid)) && e in es && e.rid == d.entry.rid
    ensures SameIdentity(row, d.entry) <==> Agrees(es, d)
  {
    hide Covers, Points;
    assert e in EntriesOf(es, d.entry.rid);
    forall x | x in es && x.rid == d.entry.rid
      ensures SameIdentity(row, x)
    {
      assert x in EntriesOf(es, d.entry.rid);
    }
  }

  lemma NoSelfSupport(ont: Ontology, log: seq<Observation>, d: Derivation)
    requires Shaped(ont, log, d)
    ensures d.entry.rid !in d.supports
  {
    forall sup | sup in d.supports
      ensures sup != d.entry.rid
    {
      assert Supports(d.rule, d.entry.obs, sup);
    }
  }

  // The handler's registry admits what a rule derived.
  predicate Allowed(cfg: Config, d: Derivation) {
    ValidEdge(cfg.ontology, d.entry.rid.rtype, d.entry.sourceType, d.entry.targetType)
  }

  /** Persisting fails exactly on an edge the handler's registry refuses and on contradictory endpoint
      types: the derivation, self-support and missing-support errors cannot occur. */
  lemma PersistSucceeds(log: seq<Observation>, cfg: Config, r: nat, ds: set<Derivation>, g: Graph, d: Derivation, item: Item)
    requires r <= |log| && UniqueObservations(log)
    requires GraphExact(g, log, r, ds) && AllJustified(log, cfg, ds) && Justified(log, cfg, d)
    requires d.entry.seqNo == item.seqNo && d.entry.obs == item.obs
    requires d.supports <= set e | e in EntriesAt(log, r, ds) :: e.rid
    ensures Correlation.Persist(cfg.ontology, g, item, CandidateOf(d)).Some? <==>
      Allowed(cfg, d) && Agrees(EntriesAt(log, r, ds), d)
  {
    hide Justified, TablesExact, EntriesAt, Agrees, Supports;
    var es := EntriesAt(log, r, ds);
    JustifiedShaped(log, cfg, d);
    CandidateEntry(cfg, log, d, item);
    RecordSucceeds(g, es, d);
    NoSelfSupport(cfg.ruleOntology, log, d);
    if Agrees(es, d) {
      var key, g1 := KeyOf(d.entry), Record(g, d.entry).value;
      if key in g1.derivations {
        var x :| x in ds && KeyOf(x.entry) == key;
        UniqueKey(log, cfg, x, d);
      }
      SupportsPresent(g, es, d);
    }
  }

  lemma SupportsPresent(g: Graph, es: set<Entry>, d: Derivation)
    requires TablesExact(g, es) && d.supports <= (set e | e in es :: e.rid)
    ensures d.supports <= g.relationships.Keys
  {
    RelationshipKeys(g.relationships, es);
  }

  ghost predicate DistinctOutputs(fired: seq<Derivation>) {
    forall i, j | 0 <= i < j < |fired| :: fired[i].entry.rid != fired[j].entry.rid
  }

  lemma {:induction false} PersistAllSucceeds(log: seq<Observation>, cfg: Config, r: nat, ds: set<Derivation>, g: Graph,
                                              fired: seq<Derivation>, item: Item)
    requires r <= |log| && UniqueObservations(log)
    requires GraphExact(g, log, r, ds) && AllJustified(log, cfg, ds)
    requires forall d | d in fired :: Justified(log, cfg, d) && d.entry.seqNo == item.seqNo && d.entry.obs == item.obs
    requires forall d | d in fired :: d.supports <= set e | e in EntriesAt(log, r, ds) :: e.rid
    requires DistinctOutputs(fired)
    ensures Correlation.PersistAll(cfg.ontology, g, item, CandidatesOf(fired)).Some? <==>
      forall d | d in fired :: Allowed(cfg, d) && Agrees(EntriesAt(log, r, ds), d)
  {
    hide Justified, GraphExact, Correlation.Persist, EntriesAt, Agrees, Allowed;
    if fired != [] {
      var init, d := fired[..|fired| - 1], fired[|fired| - 1];
      assert fired == init + [d];
      var cs := CandidatesOf(fired);
      assert cs[..|cs| - 1] == CandidatesOf(init);
      PersistAllSucceeds(log, cfg, r, ds, g, init, item);
      if Correlation.PersistAll(cfg.ontology, g, item, CandidatesOf(init)).Some? {
        PersistAllExact(log, cfg, r, ds, g, init, item);
        var g1 := Correlation.PersistAll(cfg.ontology, g, item, CandidatesOf(init)).value;
        var ds1 := ds + DerivationSet(init);
        MoreEntries(log, r, ds, init, d);
        PersistSucceeds(log, cfg, r, ds1, g1, d, item);
      }
    }
  }

  lemma MoreEntries(log: seq<Observation>, r: nat, ds: set<Derivation>, init: seq<Derivation>, d: Derivation)
    requires r <= |log|
    requires forall x | x in init :: x.entry.rid != d.entry.rid
    requires d.supports <= set e | e in EntriesAt(log, r, ds) :: e.rid
    ensures Agrees(EntriesAt(log, r, ds + DerivationSet(init)), d) <==> Agrees(EntriesAt(log, r, ds), d)
    ensures d.supports <= set e | e in EntriesAt(log, r, ds + DerivationSet(init)) :: e.rid
  {
    hide Stated;
    var es, es1 := EntriesAt(log, r, ds), EntriesAt(log, r, ds + DerivationSet(init));
    forall e | e in es
      ensures e in es1
    {
      if e !in Stated(log, r) {
        var x :| x in ds && x.entry == e;
        assert x in ds + DerivationSet(init);
      }
    }
    forall e | e in es1 && e.rid == d.entry.rid
      ensures e in es
    {
      if e !in Stated(log, r) {
        var x :| x in ds + DerivationSet(init) && x.entry == e;
      }
    }
  }

  lemma {:induction false} FiredDistinct(ont: Ontology, es: set<Entry>, item: Item, rules: seq<RuleId>)
    requires forall i, j | 0 <= i < j < |rules| :: rules[i] != rules[j]
    ensures DistinctOutputs(Fired(ont, es, item, rules))
    ensures forall d | d in Fired(ont, es, item, rules) :: d.rule in rules && d.entry.rid.rule == Some(d.rule)
    ensures forall d | d in Fired(ont, es, item, rules) :: d.supports <= set e | e in es :: e.rid
  {
    hide Fires, Basis;
    if rules != [] {
      var init, rule := rules[..|rules| - 1], rules[|rules| - 1];
      assert rules == init + [rule];
      FiredDistinct(ont, es, item, init);
      if Fires(ont, es, item, rule) {
        assert Derive(ont, es, item, rule).rule == rule && rule !in init;
        DerivedFromKnown(ont, es, item, rule);
      }
    }
  }

  lemma DerivedFromKnown(ont: Ontology, es: set<Entry>, item: Item, rule: RuleId)
    requires Fires(ont, es, item, rule)
    ensures Derive(ont, es, item, rule).supports <= set e | e in es :: e.rid
  {
  }

  // Nothing known before n types an endpoint against what the rules read or derive at n.
  ghost predicate TypesConsistent(cfg: Config, log: seq<Observation>, n: nat)
    requires 1 <= n <= |log|
  {
    var known, item, rules := Known(log, cfg, n - 1), ItemAt(log, n), Rules(cfg.ruleset);
    && !AnyInconsistent(known, item, rules)
    && forall d | d in Fired(cfg.ruleOntology, known, item, rules) :: Agrees(known, d)
  }

  // The handler's registry admits everything the rules derive at n.
  ghost predicate Permitted(cfg: Config, log: seq<Observation>, n: nat)
    requires 1 <= n <= |log|
  {
    forall d | d in Fired(cfg.ruleOntology, Known(log, cfg, n - 1), ItemAt(log, n), Rules(cfg.ruleset)) :: Allowed(cfg, d)
  }

  // The registry admits every edge the rules' ontology lets them derive.
  ghost predicate RegistryCovers(cfg: Config) {
    forall rule: RuleId, s, t | ValidEdge(cfg.ruleOntology, Output(rule), s, t) :: ValidEdge(cfg.ontology, Output(rule), s, t)
  }

  /** A registry that covers the rules' ontology never refuses a derivation. */
  lemma CoveringPermits(cfg: Config, log: seq<Observation>, n: nat)
    requires 1 <= n <= |log| && RegistryCovers(cfg)
    ensures Permitted(cfg, log, n)
  {
    hide Known, Fired, Justified, ValidEdge;
    FiredIsNew(log, cfg, n);
    forall d | d in Fired(cfg.ruleOntology, Known(log, cfg, n - 1), ItemAt(log, n), Rules(cfg.ruleset))
      ensures Allowed(cfg, d)
    {
      JustifiedShaped(log, cfg, d);
    }
  }

  lemma AgreesBounded(log: seq<Observation>, cfg: Config, r: nat, n: nat, d: Derivation)
    requires 1 <= n <= r <= |log| && d.entry.rid.provenance == Deterministic
    ensures Agrees(EntriesAt(log, r, Derivations(log, cfg, n - 1)), d) <==> Agrees(Known(log, cfg, n - 1), d)
  {
    hide Derivations, Stated;
    var ds := Derivations(log, cfg, n - 1);
    forall e: Entry | e.rid == d.entry.rid
      ensures e in EntriesAt(log, r, ds) <==> e in Known(log, cfg, n - 1)
    {
      StatedObserved(log, r, e);
      StatedObserved(log, n - 1, e);
    }
  }

  lemma StatedObserved(log: seq<Observation>, r: nat, e: Entry)
    requires r <= |log|
    ensures e in Stated(log, r) ==> e.rid.provenance == Observed
  {
  }

  lemma RulesDistinct(v: Ruleset)
    ensures forall i, j | 0 <= i < j < |Rules(v)| :: Rules(v)[i] != Rules(v)[j]
  {
  }

  /** The handler succeeds exactly when the relationship projector has reached the item, the earlier
      entries agree on endpoint types and the registry admits what the rules derive. */
  lemma StepSucceeds(cfg: Config, log: seq<Observation>, r: nat, n: nat, g: Graph, relationshipCheckpoint: nat)
    requires 1 <= n <= r <= |log| && UniqueObservations(log)
    requires GraphExact(g, log, r, Derivations(log, cfg, n - 1))
    ensures Correlation.Step(cfg, g, EvidenceLinks(log), relationshipCheckpoint, ItemAt(log, n)).Done? <==>
      relationshipCheckpoint >= n && TypesConsistent(cfg, log, n) && Permitted(cfg, log, n)
  {
    hide Derivations, Known, EntriesAt, Fired, Correlation.PersistAll, Correlation.EvaluateAll, LineageTablesExact,
      TablesExact, Justified, EvidenceLinks, AnyInconsistent, Readable, Agrees, Allowed, DistinctOutputs, Rules;
    var ds := Derivations(log, cfg, n - 1);
    var live, item, rules := EntriesAt(log, r, ds), ItemAt(log, n), Rules(cfg.ruleset);
    KnownOrigin(log, cfg, r, n - 1);
    ExactReadable(g, live);
    EvaluateAllExact(cfg.ruleOntology, g, log, live, item, rules);
    LiveFired(log, cfg, r, n, rules);
    FiredIsNew(log, cfg, n);
    var fired := Fired(cfg.ruleOntology, live, item, rules);
    RulesDistinct(cfg.ruleset);
    FiredDistinct(cfg.ruleOntology, live, item, rules);
    PersistAllSucceeds(log, cfg, r, ds, g, fired, item);
    forall d | d in fired
      ensures Agrees(live, d) <==> Agrees(Known(log, cfg, n - 1), d)
    {
      JustifiedShaped(log, cfg, d);
      AgreesBounded(log, cfg, r, n, d);
    }
  }
}
