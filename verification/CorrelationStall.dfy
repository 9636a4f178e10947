/** When the correlation projector stops for good: the exact condition on its next item, and a run that
    meets it. */
module CorrelationStall {
  import opened Domain
  import opened RelationshipGraph
  import opened CorrelationRules
  import opened CorrelationHistory
  import opened CorrelationExactness
  import opened GraphInvariants
  import opened ProjectionRunner
  import opened Pipeline
  import opened PipelineSteps
  import opened PipelineTheorems
  import opened PipelineProgress
  import opened Guarantees
  import CoreOntology
  import Relationship = RelationshipProjection

  // What the n-th item of the log needs besides an open gate.
  ghost predicate Derivable(cfg: Config, log: seq<Observation>, n: nat)
    requires 1 <= n <= |log|
  {
    TypesConsistent(cfg, log, n) && Permitted(cfg, log, n)
  }

  /** After any run, and with the entity projector anywhere, the correlation handler succeeds on its next
      item if and only if its gate is open and the item is derivable; otherwise it raises. */
  lemma {:induction false} NextCorrelation(cfg: Config, steps: seq<Step>)
    requires After(cfg, steps).correlation.checkpoint.last < |After(cfg, steps).log|
    ensures var s := After(cfg, steps);
      var c := s.correlation.checkpoint.last;
      if c < s.relationship.checkpoint.last && Derivable(cfg, s.log, c + 1)
      then NextAttempt(cfg, s, CorrelationProjector).Done? else NextAttempt(cfg, s, CorrelationProjector).Aborted?
  {
    hide After, Bookkeeping, UniqueObservations, TablesAt, HandlerOf, TypesConsistent, Permitted;
    ReachableInvariant(cfg, steps);
    CorrelationOutcome(cfg, After(cfg, steps), After(cfg, steps).tables, After(cfg, steps).correlation.checkpoint.last);
  }

  /** Whether an item is derivable was settled when it was appended. */
  lemma DerivablePrefix(cfg: Config, log: seq<Observation>, log': seq<Observation>, n: nat)
    requires 1 <= n <= |log| && log <= log'
    ensures Derivable(cfg, log', n) <==> Derivable(cfg, log, n)
  {
    hide Derivations, Items, AnyInconsistent, Fired, Agrees, Allowed;
    DerivationsPrefix(log, log', cfg, n - 1);
    ItemsPrefix(log, log', n - 1);
    assert ItemAt(log', n) == ItemAt(log, n);
    assert Known(log', cfg, n - 1) == Known(log, cfg, n - 1);
  }

  lemma StepStuck(cfg: Config, s: System, step: Step)
    requires Invariant(cfg, s) && s.correlation.checkpoint.last < |s.log|
    requires !Derivable(cfg, s.log, s.correlation.checkpoint.last + 1)
    ensures Pipeline.Apply(cfg, s, step).correlation.checkpoint.last == s.correlation.checkpoint.last
    ensures s.log <= Pipeline.Apply(cfg, s, step).log
  {
    hide UniqueObservations, TablesAt, RunBatch, HandlerOf, Consistent, EntriesOfLog, TypesConsistent, Permitted;
    if step.RunProjector? && step.name.CorrelationProjector? {
      var c := s.correlation.checkpoint.last;
      EntriesAreItems(s.log);
      CorrelationOutcome(cfg, s, s.tables, c);
      assert c + 1 in EntriesOfLog(s.log);
      assert Item(c + 1, EntriesOfLog(s.log)[c + 1]) == ItemAt(s.log, c + 1);
      BatchStuck(EntriesOfLog(s.log), |s.log|, HandlerOf(cfg, s, step.name), step.faults, step.limit, step.retry, s.correlation, s.tables);
    }
  }

  /** An item that is not derivable stops the correlation projector for good: whatever else happens in
      the run, on every attempt the handler raises and the checkpoint stays before the item. */
  lemma {:induction false} StalledForever(cfg: Config, steps: seq<Step>, n: nat)
    requires n <= |steps| && After(cfg, steps[..n]).correlation.checkpoint.last < |After(cfg, steps[..n]).log|
    requires !Derivable(cfg, After(cfg, steps[..n]).log, After(cfg, steps[..n]).correlation.checkpoint.last + 1)
    ensures After(cfg, steps[..n]).log <= After(cfg, steps).log
    ensures After(cfg, steps).correlation.checkpoint.last == After(cfg, steps[..n]).correlation.checkpoint.last
    ensures !Derivable(cfg, After(cfg, steps).log, After(cfg, steps).correlation.checkpoint.last + 1)
    ensures NextAttempt(cfg, After(cfg, steps), CorrelationProjector).Aborted?
    decreases |steps|
  {
    hide Pipeline.Apply, Derivable, Invariant, NextAttempt;
    if n == |steps| {
      assert steps[..n] == steps;
    } else {
      var init := steps[..|steps| - 1];
      assert init[..n] == steps[..n];
      StalledForever(cfg, init, n);
      ReachableInvariant(cfg, init);
      var s := After(cfg, init);
      StepStuck(cfg, s, steps[|steps| - 1]);
      DerivablePrefix(cfg, s.log, After(cfg, steps).log, s.correlation.checkpoint.last + 1);
    }
    NextCorrelation(cfg, steps);
  }

  /* ----- A run that stalls ----- */

  const CORE := Config(CoreOntology.CORE_ONTOLOGY, CoreOntology.CORE_ONTOLOGY, RulesetV2)

  // An exploit of an application, stated directly.
  const EXPLOIT := Observation(
    "obs-1", "tenant", "sensor", 0, NetworkActivity, "exploit_report", 1.0,
    EntityRef("ip:198.51.100.7", IpAddress, "attacker", map[]), Some(EntityRef("svc:billing", Application, "billing", map[])),
    Some(Exploited), [EvidenceRef("ev-1", "report")], false, None, "")

  // A suspicious process on the same entity id, this time typed as an asset.
  const PROCESS := Observation(
    "obs-2", "tenant", "sensor", 1, ProcessActivity, "process_start", 1.0,
    EntityRef("proc:4711", EntityType.Process, "shell", map[]), Some(EntityRef("svc:billing", Asset, "billing", map[])),
    None, [EvidenceRef("ev-2", "event")], true, Some("ip:198.51.100.7"), "")

  const TWICE_TYPED := [EXPLOIT, PROCESS]

  const STALLING_RUN: seq<Step> := [
    Ingest(EXPLOIT), Ingest(PROCESS),
    RunProjector(RelationshipProjector, 2, false, NO_FAULTS),
    RunProjector(CorrelationProjector, 1, false, NO_FAULTS)]

  lemma FirstIsDerivable()
    ensures Derivable(CORE, TWICE_TYPED, 1)
  {
    var rules := Rules(CORE.ruleset);
    assert rules == [CorSeq001, CorSeq002];
    var known, item := Known(TWICE_TYPED, CORE, 0), ItemAt(TWICE_TYPED, 1);
    hide Known, ValidEdge;
    assert !Triggers(CorSeq001, item.obs) && !Triggers(CorSeq002, item.obs);
    assert rules[..1] == [CorSeq001] && rules[..1][..0] == [];
    assert Fired(CORE.ruleOntology, known, item, [CorSeq001]) == [];
    assert Fired(CORE.ruleOntology, known, item, rules) == [];
  }

  lemma SecondIsNot()
    ensures !Derivable(CORE, TWICE_TYPED, 2)
  {
    hide Derivations, ValidEdge;
    var rules := Rules(CORE.ruleset);
    var known, item := Known(TWICE_TYPED, CORE, 1), ItemAt(TWICE_TYPED, 2);
    var e := Relationship.ObservedEntry(ItemAt(TWICE_TYPED, 1));
    StatedMember(TWICE_TYPED, 1, e);
    assert e in Basis(known, item, CorSeq002);
    assert Inconsistent(known, item, CorSeq002);
    assert rules[1] == CorSeq002;
    assert AnyInconsistent(known, item, rules);
  }

  lemma Ingested()
    ensures After(CORE, STALLING_RUN[..2]) == START.(log := TWICE_TYPED)
  {
    hide BatchOf, After;
    AfterOne(CORE, [], Ingest(EXPLOIT));
    AfterOne(CORE, [Ingest(EXPLOIT)], Ingest(PROCESS));
    AfterNothing(CORE);
    assert [] + [Ingest(EXPLOIT)] == [Ingest(EXPLOIT)];
    assert STALLING_RUN[..2] == [Ingest(EXPLOIT)] + [Ingest(PROCESS)];
    assert [] + [EXPLOIT] == [EXPLOIT] && [EXPLOIT] + [PROCESS] == TWICE_TYPED;
    assert EXPLOIT.id != PROCESS.id by {
      assert EXPLOIT.id[4] != PROCESS.id[4];
    }
    assert !AlreadyStored([], EXPLOIT) && !AlreadyStored([EXPLOIT], PROCESS);
  }

  lemma RelationshipsAccepted(s: System, t: Tables, k: nat)
    requires s.log == TWICE_TYPED && UniqueObservations(s.log) && StandsAt(CORE, s, RelationshipProjector, t, k) && k < 2
    requires s.correlation.checkpoint.last == 0
    ensures HandlerOf(CORE, s, RelationshipProjector)(t, ItemAt(s.log, k + 1)).Done?
  {
    hide UniqueObservations, GraphAt, ScenesExact, EntitiesAt, Record;
    if k == 0 {
      FirstRecorded(t.graph);
    }
  }

  lemma FirstRecorded(g: Graph)
    requires GraphAt(g, TWICE_TYPED, CORE, 0, 0)
    ensures Record(g, Relationship.ObservedEntry(ItemAt(TWICE_TYPED, 1))).Some?
  {
    hide TablesExact, LineageTablesExact, Record, Agrees;
    var d := Derivation(Relationship.ObservedEntry(ItemAt(TWICE_TYPED, 1)), CorSeq001, {}, {}, {});
    var es := EntriesAt(TWICE_TYPED, 0, Derivations(TWICE_TYPED, CORE, 0));
    assert Items(TWICE_TYPED, 0) == {};
    assert es == {};
    NoEntries(es, d);
    RecordSucceeds(g, es, d);
  }

  // A full batch of a projector whose handler accepts every item of it.
  lemma AcceptedBatch(s: System, name: ProjectorName, limit: nat)
    requires Invariant(CORE, s) && 1 <= limit <= MAX_LIMIT && ProjectorOf(s, name).checkpoint.status.Idle?
    requires ProjectorOf(s, name).checkpoint.last + limit <= |s.log|
    requires forall t, k: nat | StandsAt(CORE, s, name, t, k) && k < ProjectorOf(s, name).checkpoint.last + limit ::
      HandlerOf(CORE, s, name)(t, ItemAt(s.log, k + 1)).Done?
    ensures var s' := Pipeline.Apply(CORE, s, RunProjector(name, limit, false, NO_FAULTS));
      OnlyRan(s, s', name) && ProjectorOf(s', name).checkpoint.last == ProjectorOf(s, name).checkpoint.last + limit
  {
    hide UniqueObservations, TablesAt, RunBatch, HandlerOf, EntriesOfLog, Consistent, Gated;
    var entries, h, p := EntriesOfLog(s.log), HandlerOf(CORE, s, name), ProjectorOf(s, name);
    var inv := (t: Tables, k: nat) => StandsAt(CORE, s, name, t, k);
    var ready := (q: nat) => true;
    EntriesAreItems(s.log);
    forall t, k: nat | inv(t, k) && k < p.checkpoint.last + limit && k + 1 in entries
      ensures GatedAt(entries, h, inv, ready, t, k)
    {
      assert StandsAt(CORE, s, name, t, k);
      HandlerKeeps(CORE, s, name, t, k);
    }
    assert Gated(entries, p.checkpoint.last + limit, h, inv, ready) by {
      MakeGated(entries, p.checkpoint.last + limit, h, inv, ready);
    }
    BatchGated(entries, |s.log|, h, NO_FAULTS, limit, false, p, s.tables, p.checkpoint.last + limit, inv, ready);
  }

  lemma RelationshipBatch(s: System)
    requires s == START.(log := TWICE_TYPED) && Invariant(CORE, s)
    ensures var s' := Pipeline.Apply(CORE, s, RunProjector(RelationshipProjector, 2, false, NO_FAULTS));
      OnlyRan(s, s', RelationshipProjector) && s'.relationship.checkpoint.last == 2
  {
    hide UniqueObservations, TablesAt, HandlerOf, Pipeline.Apply, Consistent, EntriesOfLog;
    forall t, k: nat | StandsAt(CORE, s, RelationshipProjector, t, k) && k < 2
      ensures HandlerOf(CORE, s, RelationshipProjector)(t, ItemAt(s.log, k + 1)).Done?
    {
      RelationshipsAccepted(s, t, k);
    }
    AcceptedBatch(s, RelationshipProjector, 2);
  }

  lemma CorrelationBatch(s: System)
    requires s.log == TWICE_TYPED && Invariant(CORE, s) && s.relationship.checkpoint.last == 2 && s.correlation == REGISTERED
    ensures var s' := Pipeline.Apply(CORE, s, RunProjector(CorrelationProjector, 1, false, NO_FAULTS));
      OnlyRan(s, s', CorrelationProjector) && s'.correlation.checkpoint.last == 1
  {
    hide UniqueObservations, TablesAt, HandlerOf, Pipeline.Apply, Consistent, EntriesOfLog, TypesConsistent, Permitted;
    FirstIsDerivable();
    forall t, k: nat | StandsAt(CORE, s, CorrelationProjector, t, k) && k < 1
      ensures HandlerOf(CORE, s, CorrelationProjector)(t, ItemAt(s.log, k + 1)).Done?
    {
      CorrelationOutcome(CORE, s, t, k);
    }
    AcceptedBatch(s, CorrelationProjector, 1);
  }

  /** An entity id typed twice stalls the projector: in this run the relationship projector is past both
      observations, so the gate is open, and the correlation handler raises on the second. */
  lemma TwiceTypedStalls()
    ensures var s := After(CORE, STALLING_RUN);
      && s.log == TWICE_TYPED && s.relationship.checkpoint.last == 2 && s.correlation.checkpoint.last == 1
      && !Derivable(CORE, s.log, 2)
      && NextAttempt(CORE, s, CorrelationProjector).Aborted?
  {
    hide After, Pipeline.Apply, Invariant, Derivable, NextAttempt;
    var run, correlate := STALLING_RUN[2], STALLING_RUN[3];
    Ingested();
    var s2 := START.(log := TWICE_TYPED);
    ReachableInvariant(CORE, STALLING_RUN[..2]);
    RelationshipBatch(s2);
    var s3 := Pipeline.Apply(CORE, s2, run);
    OthersUntouched(s2, s3, RelationshipProjector);
    assert STALLING_RUN[..3] == STALLING_RUN[..2] + [run];
    AfterOne(CORE, STALLING_RUN[..2], run);
    ReachableInvariant(CORE, STALLING_RUN[..3]);
    CorrelationBatch(s3);
    var s4 := Pipeline.Apply(CORE, s3, correlate);
    OthersUntouched(s3, s4, CorrelationProjector);
    assert STALLING_RUN == STALLING_RUN[..3] + [correlate];
    AfterOne(CORE, STALLING_RUN[..3], correlate);
    SecondIsNot();
    NextCorrelation(CORE, STALLING_RUN);
  }
}
