/** The projection runner: a checkpoint and failure state machine that drives any handler over the
    ingest log in bounded, atomic batches. */
module ProjectionRunner {
  import opened Domain

  datatype Status = Idle | Failed | Paused

  datatype Failure = Failure(tenant: string, obsId: string, active: bool, attempts: nat, code: string)

  datatype Checkpoint = Checkpoint(last: nat, status: Status, failureSeq: Option<nat>)

  // A projector's durable bookkeeping: its checkpoint row and its failure rows by sequence.
  datatype Projector = Projector(checkpoint: Checkpoint, failures: map<nat, Failure>)

  const REGISTERED := Projector(Checkpoint(0, Idle, None), map[])

  // The sequence entries of the log, each joined with its observation.
  type Entries = map<nat, Observation>

  datatype Outcome = Advanced | CaughtUp | FailedAt | PausedRun | Blocked

  datatype RunError = InvalidLimit | InconsistentState | HandlerAborted

  datatype RunResult =
    | Ran(outcome: Outcome, starting: nat, ending: nat, high: nat, processed: nat, failureSeq: Option<nat>)
    | RunRaised(error: RunError)

  // What the environment does to one handler call.
  datatype Fault = NoFault | UnexpectedException | InfrastructureError

  const UNHANDLED := "unhandled_projection_error"

  const MAX_LIMIT := 500

  type Handler<!S> = (S, Item) -> Attempt<S>

  function Call<S>(h: Handler<S>, s: S, item: Item, fault: Fault): Attempt<S> {
    match fault
    case NoFault => h(s, item)
    case UnexpectedException => Poison(UNHANDLED)
    case InfrastructureError => Aborted
  }

  // _require_active_failure
  predicate HasActiveFailure(p: Projector, item: Item) {
    && item.seqNo in p.failures
    && p.failures[item.seqNo].active
    && p.failures[item.seqNo].tenant == item.obs.tenant
    && p.failures[item.seqNo].obsId == item.obs.id
  }

  // _validate_checkpoint_state
  predicate ValidCheckpoint(p: Projector) {
    var c := p.checkpoint;
    match c.status
    case Idle => c.failureSeq.None?
    case Paused => c.failureSeq.None?
    case Failed => c.failureSeq == Some(c.last + 1) && c.last + 1 in p.failures && p.failures[c.last + 1].active
  }

  // _upsert_failure together with the checkpoint update beside it.
  function RecordFailure(p: Projector, item: Item, code: string): Projector {
    var row := if item.seqNo in p.failures
      then p.failures[item.seqNo].(active := true, attempts := p.failures[item.seqNo].attempts + 1, code := code)
      else Failure(item.obs.tenant, item.obs.id, true, 1, code);
    Projector(p.checkpoint.(status := Failed, failureSeq := Some(item.seqNo)), p.failures[item.seqNo := row])
  }

  // The checkpoint update after a handled item, and _resolve_failure when it was a retry.
  function Advance(p: Projector, item: Item): Projector {
    Projector(Checkpoint(item.seqNo, Idle, None),
              if p.checkpoint.status.Failed? && item.seqNo in p.failures
              then p.failures[item.seqNo := p.failures[item.seqNo].(active := false)] else p.failures)
  }

  datatype Batch<+S> = Finished(projector: Projector, state: S, processed: nat, failureSeq: Option<nat>) | Abandoned(error: RunError)

  // The batch loop from a given point.
  function RunFrom<S>(entries: Entries, high: nat, h: Handler<S>, faults: nat -> Fault, limit: nat,
                      p: Projector, s: S, processed: nat, attemptedFailed: bool): Batch<S>
    decreases high - p.checkpoint.last
  {
    var next := p.checkpoint.last + 1;
    if processed >= limit || p.checkpoint.last >= high then Finished(p, s, processed, None)
    else if p.checkpoint.status.Failed? && (p.checkpoint.failureSeq != Some(next) || attemptedFailed) then
      Abandoned(InconsistentState)
    else if next !in entries then Abandoned(InconsistentState)
    else if p.checkpoint.status.Failed? && !HasActiveFailure(p, Item(next, entries[next])) then Abandoned(InconsistentState)
    else
      var item := Item(next, entries[next]);
      match Call(h, s, item, faults(next))
      case Aborted => Abandoned(HandlerAborted)
      case Poison(code) => Finished(RecordFailure(p, item, code), s, processed, Some(next))
      case Done(s') =>
        RunFrom(entries, high, h, faults, limit, Advance(p, item), s', processed + 1,
                attemptedFailed || p.checkpoint.status.Failed?)
  }

  datatype Run<+S> = Run(result: RunResult, projector: Projector, state: S)

  function Conclude<S>(p: Projector, s: S, high: nat, b: Batch<S>): Run<S> {
    var starting := p.checkpoint.last;
    match b
    case Abandoned(error) => Run(RunRaised(error), p, s)
    case Finished(p', s', processed, failureSeq) =>
      var ending := p'.checkpoint.last;
      if failureSeq.Some? then Run(Ran(FailedAt, starting, ending, high, processed, failureSeq), p', s')
      else if ending == high then Run(Ran(CaughtUp, starting, ending, high, processed, None), p', s')
      else if processed > 0 then Run(Ran(Advanced, starting, ending, high, processed, None), p', s')
      else Run(RunRaised(InconsistentState), p, s)
  }

  /** One call of run_batch: its result and the committed bookkeeping and projection state. A raise
      rolls everything back. */
  function RunBatch<S>(entries: Entries, high: nat, h: Handler<S>, faults: nat -> Fault, limit: int, retry: bool,
                       p: Projector, s: S): Run<S>
  {
    var c := p.checkpoint;
    if limit < 1 || limit > MAX_LIMIT then Run(RunRaised(InvalidLimit), p, s)
    else if !ValidCheckpoint(p) then Run(RunRaised(InconsistentState), p, s)
    else if c.status.Paused? then Run(Ran(PausedRun, c.last, c.last, c.last, 0, None), p, s)
    else if c.status.Failed?
            && (c.failureSeq.value > high || c.failureSeq.value !in entries
                || !HasActiveFailure(p, Item(c.failureSeq.value, entries[c.failureSeq.value]))) then
      Run(RunRaised(InconsistentState), p, s)
    else if c.status.Failed? && !retry then Run(Ran(Blocked, c.last, c.last, high, 0, c.failureSeq), p, s)
    else Conclude(p, s, high, RunFrom(entries, high, h, faults, limit, p, s, 0, false))
  }

  /* ----- The runner as it updates its rows ----- */

  class ProjectorRows<S> {
    var checkpoint: Checkpoint
    var failures: map<nat, Failure>
    var state: S

    constructor (initial: S)
      ensures Rows() == REGISTERED && state == initial
    {
      checkpoint, failures, state := Checkpoint(0, Idle, None), map[], initial;
    }

    function Rows(): Projector
      reads this
    {
      Projector(checkpoint, failures)
    }

    method UpsertFailure(item: Item, code: string)
      modifies this
      ensures Rows() == RecordFailure(old(Rows()), item, code) && state == old(state)
    {
      if item.seqNo !in failures {
        failures := failures[item.seqNo := Failure(item.obs.tenant, item.obs.id, true, 1, code)];
      } else {
        var row := failures[item.seqNo];
        failures := failures[item.seqNo := row.(active := true, attempts := row.attempts + 1, code := code)];
      }
      checkpoint := checkpoint.(status := Failed);
      checkpoint := checkpoint.(failureSeq := Some(item.seqNo));
    }

    method MarkProcessed(item: Item)
      modifies this
      ensures Rows() == Advance(old(Rows()), item) && state == old(state)
    {
      var retried := checkpoint.status.Failed?;
      checkpoint := checkpoint.(last := item.seqNo);
      checkpoint := checkpoint.(status := Idle);
      checkpoint := checkpoint.(failureSeq := None);
      if retried && item.seqNo in failures {
        failures := failures[item.seqNo := failures[item.seqNo].(active := false)];
      }
    }

    // The while loop of run_batch.
    method Loop(entries: Entries, high: nat, h: Handler<S>, faults: nat -> Fault, limit: nat)
      returns (error: Option<RunError>, processed: nat, failureSeq: Option<nat>)
      modifies this
      ensures var b := RunFrom(entries, high, h, faults, limit, old(Rows()), old(state), 0, false);
        && (error.Some? <==> b.Abandoned?)
        && (error.Some? ==> b.error == error.value)
        && (error.None? ==> b == Finished(Rows(), state, processed, failureSeq))
    {
      processed, failureSeq, error := 0, None, None;
      var attemptedFailed := false;
      ghost var whole := RunFrom(entries, high, h, faults, limit, Rows(), state, 0, false);
      while processed < limit && checkpoint.last < high
        invariant whole == RunFrom(entries, high, h, faults, limit, Rows(), state, processed, attemptedFailed)
        decreases high - checkpoint.last
      {
        var next := checkpoint.last + 1;
        var wasFailed := checkpoint.status.Failed?;
        if wasFailed && (checkpoint.failureSeq != Some(next) || attemptedFailed) {
          return Some(InconsistentState), 0, None;
        }
        if next !in entries {
          return Some(InconsistentState), 0, None;
        }
        var item := Item(next, entries[next]);
        if wasFailed && !HasActiveFailure(Rows(), item) {
          return Some(InconsistentState), 0, None;
        }
        attemptedFailed := attemptedFailed || wasFailed;
        match Call(h, state, item, faults(next)) {
          case Aborted =>
            return Some(HandlerAborted), 0, None;
          case Poison(code) =>
            UpsertFailure(item, code);
            failureSeq := Some(next);
            return;
          case Done(s') =>
            MarkProcessed(item);
            state := s';
            processed := processed + 1;
        }
      }
    }

    method Batch(entries: Entries, high: nat, h: Handler<S>, faults: nat -> Fault, limit: int, retry: bool)
      returns (result: RunResult)
      modifies this
      ensures Run(result, Rows(), state) == RunBatch(entries, high, h, faults, limit, retry, old(Rows()), old(state))
    {
      if limit < 1 || limit > MAX_LIMIT {
        return RunRaised(InvalidLimit);
      }
      if !ValidCheckpoint(Rows()) {
        return RunRaised(InconsistentState);
      }
      var starting := checkpoint.last;
      if checkpoint.status.Paused? {
        return Ran(PausedRun, starting, starting, starting, 0, None);
      }
      if checkpoint.status.Failed? {
        var failed := checkpoint.failureSeq.value;
        if failed > high || failed !in entries || !HasActiveFailure(Rows(), Item(failed, entries[failed])) {
          return RunRaised(InconsistentState);
        }
        if !retry {
          return Ran(Blocked, starting, starting, high, 0, checkpoint.failureSeq);
        }
      }
      var savedCheckpoint, savedFailures, savedState := checkpoint, failures, state;
      var error, processed, failureSeq := Loop(entries, high, h, faults, limit);
      if error.None? {
        var ending := checkpoint.last;
        if failureSeq.Some? {
          return Ran(FailedAt, starting, ending, high, processed, failureSeq);
        }
        if ending == high {
          return Ran(CaughtUp, starting, ending, high, processed, None);
        }
        if processed > 0 {
          return Ran(Advanced, starting, ending, high, processed, None);
        }
        error := Some(InconsistentState);
      }
      // The transaction rolls back.
      checkpoint, failures, state := savedCheckpoint, savedFailures, savedState;
      result := RunRaised(error.value);
    }

    // pause_projector; false is the conflict raised for a failed projector.
    method Pause() returns (ok: bool)
      modifies this`checkpoint
      ensures (ok, Rows()) == PauseRows(old(Rows()))
    {
      if checkpoint.status.Failed? {
        return false;
      }
      if !checkpoint.status.Paused? {
        checkpoint := checkpoint.(status := Paused);
      }
      ok := true;
    }

    // resume_projector
    method Resume() returns (ok: bool)
      modifies this`checkpoint
      ensures (ok, Rows()) == ResumeRows(old(Rows()))
    {
      if checkpoint.status.Failed? {
        return false;
      }
      if !checkpoint.status.Idle? {
        checkpoint := checkpoint.(status := Idle);
      }
      ok := true;
    }
  }

  function PauseRows(p: Projector): (bool, Projector) {
    if p.checkpoint.status.Failed? then (false, p) else (true, p.(checkpoint := p.checkpoint.(status := Paused)))
  }

  function ResumeRows(p: Projector): (bool, Projector) {
    if p.checkpoint.status.Failed? then (false, p) else (true, p.(checkpoint := p.checkpoint.(status := Idle)))
  }

  /* ----- The checkpoint invariant ----- */

  // The log has exactly the entries 1..high.
  ghost predicate Contiguous(entries: Entries, high: nat) {
    forall k :: k in entries <==> 1 <= k <= high
  }

  /** The checkpoint lies within the log; it is failed exactly when there is an active failure,
      which is then the only one, directly after the checkpoint and about that log entry; every
      other failure is resolved and at or below the checkpoint. */
  ghost predicate Consistent(entries: Entries, high: nat, p: Projector) {
    var c := p.checkpoint;
    && c.last <= high
    && (c.status.Failed? <==> exists q :: q in p.failures && p.failures[q].active)
    && (c.failureSeq == if c.status.Failed? then Some(c.last + 1) else None)
    && (forall q | q in p.failures ::
          if p.failures[q].active
          then q == c.last + 1 && q in entries
               && p.failures[q].tenant == entries[q].tenant && p.failures[q].obsId == entries[q].id
          else q <= c.last)
  }

  lemma ConsistentIsValid(entries: Entries, high: nat, p: Projector)
    requires Consistent(entries, high, p)
    ensures ValidCheckpoint(p)
    ensures p.checkpoint.status.Failed? ==>
      && p.checkpoint.last + 1 in entries
      && HasActiveFailure(p, Item(p.checkpoint.last + 1, entries[p.checkpoint.last + 1]))
  {
  }

  lemma AdvanceConsistent(entries: Entries, high: nat, p: Projector)
    requires Consistent(entries, high, p) && p.checkpoint.last < high && p.checkpoint.last + 1 in entries
    ensures Consistent(entries, high, Advance(p, Item(p.checkpoint.last + 1, entries[p.checkpoint.last + 1])))
  {
  }

  lemma RecordFailureConsistent(entries: Entries, high: nat, p: Projector, code: string)
    requires Consistent(entries, high, p) && p.checkpoint.last < high && p.checkpoint.last + 1 in entries
    ensures Consistent(entries, high, RecordFailure(p, Item(p.checkpoint.last + 1, entries[p.checkpoint.last + 1]), code))
  {
    var next := p.checkpoint.last + 1;
    var p' := RecordFailure(p, Item(next, entries[next]), code);
    assert next in p'.failures && p'.failures[next].active;
  }

  /** The loop keeps the invariant, raises only when the handler or the infrastructure does, and
      stops only at the limit, at the captured end of the log or at a poison item. */
  lemma {:induction false} LoopConsistent<S>(entries: Entries, high: nat, h: Handler<S>, faults: nat -> Fault, limit: nat,
                                             p: Projector, s: S, processed: nat, attemptedFailed: bool)
    requires Contiguous(entries, high) && Consistent(entries, high, p) && processed <= limit
    requires attemptedFailed ==> !p.checkpoint.status.Failed?
    ensures var b := RunFrom(entries, high, h, faults, limit, p, s, processed, attemptedFailed);
      && (b.Abandoned? ==> b.error == HandlerAborted)
      && (b.Finished? ==>
            && Consistent(entries, high, b.projector)
            && b.processed - processed == b.projector.checkpoint.last - p.checkpoint.last
            && processed <= b.processed <= limit
            && (b.failureSeq.None? ==>
                  (b.processed == limit || b.projector.checkpoint.last == high)
                  && (b.projector == p || b.projector.checkpoint.status.Idle?))
            && (b.failureSeq.Some? ==>
                  b.failureSeq == Some(b.projector.checkpoint.last + 1) && b.projector.checkpoint.status.Failed?
                  && b.processed < limit))
    decreases high - p.checkpoint.last
  {
    hide Consistent;
    assert p.checkpoint.last <= high by {
      LastWithin(entries, high, p);
    }
    if processed < limit && p.checkpoint.last < high {
      var next := p.checkpoint.last + 1;
      ConsistentIsValid(entries, high, p);
      var item := Item(next, entries[next]);
      match Call(h, s, item, faults(next))
      case Aborted =>
      case Poison(code) => RecordFailureConsistent(entries, high, p, code);
      case Done(s') =>
        AdvanceConsistent(entries, high, p);
        LoopConsistent(entries, high, h, faults, limit, Advance(p, item), s', processed + 1,
                       attemptedFailed || p.checkpoint.status.Failed?);
    }
  }

  lemma LastWithin(entries: Entries, high: nat, p: Projector)
    requires Consistent(entries, high, p)
    ensures p.checkpoint.last <= high
  {
  }

  function Min(a: nat, b: nat): nat {
    if a < b then a else b
  }

  /** A batch keeps the invariant and never raises for an inconsistent state of its own: not for a
      missing entry, a mismatched failure, or work that was left undone. Without a failure it
      advances by exactly the limit or to the captured high watermark, whichever is nearer. */
  lemma BatchConsistent<S>(entries: Entries, high: nat, h: Handler<S>, faults: nat -> Fault, limit: int, retry: bool,
                           p: Projector, s: S)
    requires Contiguous(entries, high) && Consistent(entries, high, p)
    ensures var run := RunBatch(entries, high, h, faults, limit, retry, p, s);
      && Consistent(entries, high, run.projector)
      && run.result != RunRaised(InconsistentState)
      && (run.result.RunRaised? ==> run.projector == p && run.state == s)
      && (run.result.Ran? ==>
            && run.result.starting == p.checkpoint.last && run.result.ending == run.projector.checkpoint.last
            && run.result.ending == run.result.starting + run.result.processed
            && (run.result.outcome == PausedRun <==> p.checkpoint.status.Paused?)
            && (run.result.outcome == Blocked <==> p.checkpoint.status.Failed? && !retry)
            && (run.result.outcome == PausedRun || run.result.outcome == Blocked ==> run.projector == p && run.state == s)
            && (run.result.outcome == FailedAt ==>
                  run.projector.checkpoint.status.Failed? && run.result.failureSeq == Some(run.result.ending + 1))
            && (run.result.outcome == Advanced || run.result.outcome == CaughtUp ==>
                  run.result.ending == Min(run.result.starting + limit, high)
                  && (run.projector == p || run.projector.checkpoint.status.Idle?)))
  {
    hide Consistent, RunFrom;
    if 1 <= limit <= MAX_LIMIT {
      LastWithin(entries, high, p);
      ConsistentIsValid(entries, high, p);
      ActiveWithin(entries, high, p);
      LoopConsistent(entries, high, h, faults, limit, p, s, 0, false);
      var b := RunFrom(entries, high, h, faults, limit, p, s, 0, false);
      if b.Finished? {
        LastWithin(entries, high, b.projector);
      }
    }
  }

  lemma ActiveWithin(entries: Entries, high: nat, p: Projector)
    requires Contiguous(entries, high) && Consistent(entries, high, p)
    ensures p.checkpoint.status.Failed? ==> p.checkpoint.last + 1 <= high
  {
  }

  lemma PauseResumeConsistent(entries: Entries, high: nat, p: Projector)
    requires Consistent(entries, high, p)
    ensures Consistent(entries, high, PauseRows(p).1) && Consistent(entries, high, ResumeRows(p).1)
  {
  }

  lemma AppendConsistent(entries: Entries, high: nat, p: Projector, o: Observation)
    requires Contiguous(entries, high) && Consistent(entries, high, p)
    ensures Contiguous(entries[high + 1 := o], high + 1) && Consistent(entries[high + 1 := o], high + 1, p)
  {
  }

  /* ----- Refinement: the state is a fold of the handler over a log prefix ----- */

  function Fold<S>(h: Handler<S>, initial: S, entries: Entries, n: nat): Attempt<S> {
    if n == 0 then Done(initial)
    else match Fold(h, initial, entries, n - 1)
      case Done(s) => if n in entries then h(s, Item(n, entries[n])) else Aborted
      case other => other
  }

  lemma {:induction false} LoopRefines<S>(entries: Entries, high: nat, h: Handler<S>, faults: nat -> Fault, limit: nat,
                                          initial: S, p: Projector, s: S, processed: nat, attemptedFailed: bool)
    requires Fold(h, initial, entries, p.checkpoint.last) == Done(s)
    ensures var b := RunFrom(entries, high, h, faults, limit, p, s, processed, attemptedFailed);
      b.Finished? ==> Fold(h, initial, entries, b.projector.checkpoint.last) == Done(b.state)
    decreases high - p.checkpoint.last
  {
    if processed < limit && p.checkpoint.last < high && p.checkpoint.last + 1 in entries {
      var next := p.checkpoint.last + 1;
      var item := Item(next, entries[next]);
      match Call(h, s, item, faults(next))
      case Aborted =>
      case Poison(code) =>
      case Done(s') =>
        LoopRefines(entries, high, h, faults, limit, initial, Advance(p, item), s', processed + 1,
                    attemptedFailed || p.checkpoint.status.Failed?);
    }
  }

  lemma BatchRefines<S>(entries: Entries, high: nat, h: Handler<S>, faults: nat -> Fault, limit: int, retry: bool,
                        initial: S, p: Projector, s: S)
    requires Fold(h, initial, entries, p.checkpoint.last) == Done(s)
    ensures var run := RunBatch(entries, high, h, faults, limit, retry, p, s);
      Fold(h, initial, entries, run.projector.checkpoint.last) == Done(run.state)
  {
    hide Fold, RunFrom;
    if 1 <= limit <= MAX_LIMIT {
      LoopRefines(entries, high, h, faults, limit, initial, p, s, 0, false);
    }
  }

  lemma {:induction false} FoldStable<S>(h: Handler<S>, initial: S, entries: Entries, entries': Entries, n: nat)
    requires forall k | 1 <= k <= n :: (k in entries <==> k in entries') && (k in entries ==> entries[k] == entries'[k])
    ensures Fold(h, initial, entries, n) == Fold(h, initial, entries', n)
  {
    if n > 0 {
      FoldStable(h, initial, entries, entries', n - 1);
    }
  }

  /* ----- Whole histories ----- */

  datatype Op =
    | Append(o: Observation)
    | Batch(limit: int, retry: bool, faults: nat -> Fault)
    | Pause
    | Resume

  datatype World<+S> = World(entries: Entries, high: nat, projector: Projector, state: S)

  function ApplyOp<S>(h: Handler<S>, w: World<S>, op: Op): World<S> {
    match op
    case Append(o) => w.(entries := w.entries[w.high + 1 := o], high := w.high + 1)
    case Batch(limit, retry, faults) =>
      var run := RunBatch(w.entries, w.high, h, faults, limit, retry, w.projector, w.state);
      w.(projector := run.projector, state := run.state)
    case Pause => w.(projector := PauseRows(w.projector).1)
    case Resume => w.(projector := ResumeRows(w.projector).1)
  }

  function History<S>(h: Handler<S>, initial: S, ops: seq<Op>): World<S> {
    if ops == [] then World(map[], 0, REGISTERED, initial)
    else ApplyOp(h, History(h, initial, ops[..|ops| - 1]), ops[|ops| - 1])
  }

  /** For any handler and any history of appends, batches, faults, retries, pauses and resumes, the
      bookkeeping is consistent and the projection state is the in-order fold of the handler over
      the log up to the checkpoint: each item took effect exactly once, failed and rolled-back
      attempts not at all. */
  lemma {:induction false} HistoryRefines<S>(h: Handler<S>, initial: S, ops: seq<Op>)
    ensures var w := History(h, initial, ops);
      && Contiguous(w.entries, w.high)
      && Consistent(w.entries, w.high, w.projector)
      && Fold(h, initial, w.entries, w.projector.checkpoint.last) == Done(w.state)
  {
    hide Consistent, RunBatch, Fold;
    if ops == [] {
      StartConsistent(h, initial);
    } else {
      HistoryRefines(h, initial, ops[..|ops| - 1]);
      var w := History(h, initial, ops[..|ops| - 1]);
      match ops[|ops| - 1]
      case Append(o) =>
        AppendConsistent(w.entries, w.high, w.projector, o);
        LastWithin(w.entries, w.high, w.projector);
        FoldStable(h, initial, w.entries, w.entries[w.high + 1 := o], w.projector.checkpoint.last);
      case Batch(limit, retry, faults) =>
        BatchConsistent(w.entries, w.high, h, faults, limit, retry, w.projector, w.state);
        BatchRefines(w.entries, w.high, h, faults, limit, retry, initial, w.projector, w.state);
      case Pause => PauseResumeConsistent(w.entries, w.high, w.projector);
      case Resume => PauseResumeConsistent(w.entries, w.high, w.projector);
    }
  }

  // How often an item has been recorded as failed.
  function AttemptsOf(p: Projector, q: nat): nat {
    if q in p.failures then p.failures[q].attempts else 0
  }

  // One more for the item a run failed at, and none for any other.
  ghost predicate CountsFailure(p: Projector, p': Projector, failureSeq: Option<nat>) {
    forall q: nat :: AttemptsOf(p', q) == AttemptsOf(p, q) + (if failureSeq == Some(q) then 1 else 0)
  }

  lemma {:induction false} LoopCounts<S>(entries: Entries, high: nat, h: Handler<S>, faults: nat -> Fault, limit: nat,
                                         p: Projector, s: S, processed: nat, attemptedFailed: bool)
    ensures var b := RunFrom(entries, high, h, faults, limit, p, s, processed, attemptedFailed);
      b.Finished? ==> CountsFailure(p, b.projector, b.failureSeq)
    decreases high - p.checkpoint.last
  {
    if processed < limit && p.checkpoint.last < high && p.checkpoint.last + 1 in entries {
      var next := p.checkpoint.last + 1;
      var item := Item(next, entries[next]);
      match Call(h, s, item, faults(next))
      case Aborted =>
      case Poison(code) =>
      case Done(s') =>
        assert CountsFailure(p, Advance(p, item), None);
        LoopCounts(entries, high, h, faults, limit, Advance(p, item), s', processed + 1,
                   attemptedFailed || p.checkpoint.status.Failed?);
    }
  }

  // The item a run reports as failed by its handler.
  function FailedSeq(r: RunResult): Option<nat> {
    if r.Ran? && r.outcome == FailedAt then r.failureSeq else None
  }

  // How many of the batches in a history failed at q.
  function FailedRuns<S>(h: Handler<S>, initial: S, ops: seq<Op>, q: nat): nat {
    if ops == [] then 0
    else
      var w := History(h, initial, ops[..|ops| - 1]);
      var last := ops[|ops| - 1];
      var failed := if last.Batch?
        then FailedSeq(RunBatch(w.entries, w.high, h, last.faults, last.limit, last.retry, w.projector, w.state).result)
        else None;
      FailedRuns(h, initial, ops[..|ops| - 1], q) + (if failed == Some(q) then 1 else 0)
  }

  /** Attempts are counted exactly: an item's failure row holds the number of batches that failed at it,
      and an item without a row never failed; blocked and rolled-back batches do not count. */
  lemma {:induction false} AttemptsCounted<S>(h: Handler<S>, initial: S, ops: seq<Op>, q: nat)
    ensures AttemptsOf(History(h, initial, ops).projector, q) == FailedRuns(h, initial, ops, q)
  {
    hide RunBatch, AttemptsOf;
    if ops == [] {
      NeverFailed(q);
    } else {
      var init, last := ops[..|ops| - 1], ops[|ops| - 1];
      AttemptsCounted(h, initial, init, q);
      var w := History(h, initial, init);
      if last.Batch? {
        BatchCounts(w.entries, w.high, h, last.faults, last.limit, last.retry, w.projector, w.state);
      }
      SameFailures(w.projector, PauseRows(w.projector).1, q);
      SameFailures(w.projector, ResumeRows(w.projector).1, q);
    }
  }

  lemma NeverFailed(q: nat)
    ensures AttemptsOf(REGISTERED, q) == 0
  {
  }

  lemma SameFailures(p: Projector, p': Projector, q: nat)
    requires p.failures == p'.failures
    ensures AttemptsOf(p, q) == AttemptsOf(p', q)
  {
  }

  lemma BatchCounts<S>(entries: Entries, high: nat, h: Handler<S>, faults: nat -> Fault, limit: int, retry: bool,
                       p: Projector, s: S)
    ensures var run := RunBatch(entries, high, h, faults, limit, retry, p, s);
      CountsFailure(p, run.projector, FailedSeq(run.result))
  {
    hide RunFrom;
    if 1 <= limit <= MAX_LIMIT {
      LoopCounts(entries, high, h, faults, limit, p, s, 0, false);
    }
  }

  lemma StartConsistent<S>(h: Handler<S>, initial: S)
    ensures Contiguous(map[], 0) && Consistent(map[], 0, REGISTERED)
    ensures Fold(h, initial, map[], 0) == Done(initial)
  {
  }

  /* ----- Invariants of a handler carry over to batches ----- */

  /** Whatever a successful handler call preserves, relative to the checkpoint it moves, a batch
      preserves. */
  lemma {:induction false} LoopPreserves<S(!new)>(entries: Entries, high: nat, h: Handler<S>, faults: nat -> Fault, limit: nat,
                                                  p: Projector, s: S, processed: nat, attemptedFailed: bool,
                                                  inv: (S, nat) -> bool)
    requires inv(s, p.checkpoint.last)
    requires forall t, k: nat | inv(t, k) && k < high && k + 1 in entries && h(t, Item(k + 1, entries[k + 1])).Done? ::
      inv(h(t, Item(k + 1, entries[k + 1])).state, k + 1)
    ensures var b := RunFrom(entries, high, h, faults, limit, p, s, processed, attemptedFailed);
      b.Finished? ==> inv(b.state, b.projector.checkpoint.last)
    decreases high - p.checkpoint.last
  {
    if processed < limit && p.checkpoint.last < high && p.checkpoint.last + 1 in entries {
      var next := p.checkpoint.last + 1;
      var item := Item(next, entries[next]);
      match Call(h, s, item, faults(next))
      case Aborted =>
      case Poison(code) =>
      case Done(s') =>
        LoopPreserves(entries, high, h, faults, limit, Advance(p, item), s', processed + 1,
                      attemptedFailed || p.checkpoint.status.Failed?, inv);
    }
  }

  lemma BatchPreserves<S(!new)>(entries: Entries, high: nat, h: Handler<S>, faults: nat -> Fault, limit: int, retry: bool,
                                p: Projector, s: S, inv: (S, nat) -> bool)
    requires inv(s, p.checkpoint.last)
    requires forall t, k: nat | inv(t, k) && k < high && k + 1 in entries && h(t, Item(k + 1, entries[k + 1])).Done? ::
      inv(h(t, Item(k + 1, entries[k + 1])).state, k + 1)
    ensures var run := RunBatch(entries, high, h, faults, limit, retry, p, s);
      inv(run.state, run.projector.checkpoint.last)
  {
    hide RunFrom;
    if 1 <= limit <= MAX_LIMIT {
      LoopPreserves(entries, high, h, faults, limit, p, s, 0, false, inv);
    }
  }

  // The same for invariants that do not mention the checkpoint.
  lemma BatchKeepsState<S(!new)>(entries: Entries, high: nat, h: Handler<S>, faults: nat -> Fault, limit: int, retry: bool,
                                 p: Projector, s: S, inv: S -> bool)
    requires inv(s)
    requires forall t, item | inv(t) && h(t, item).Done? :: inv(h(t, item).state)
    ensures inv(RunBatch(entries, high, h, faults, limit, retry, p, s).state)
  {
    hide RunBatch;
    BatchPreserves(entries, high, h, faults, limit, retry, p, s, (t, k) => inv(t));
  }

  /** A batch whose first item the handler does not accept moves no checkpoint. */
  lemma BatchStuck<S>(entries: Entries, high: nat, h: Handler<S>, faults: nat -> Fault, limit: int, retry: bool,
                      p: Projector, s: S)
    requires p.checkpoint.last + 1 in entries && !h(s, Item(p.checkpoint.last + 1, entries[p.checkpoint.last + 1])).Done?
    ensures var run := RunBatch(entries, high, h, faults, limit, retry, p, s);
      run.projector.checkpoint.last == p.checkpoint.last && run.state == s
  {
  }

  /* ----- Batches of a handler that waits for others ----- */

  // A handler that, on the states of an invariant, succeeds on the positions it is ready for and
  // aborts on the others, up to a bound.
  ghost predicate Gated<S(!new)>(entries: Entries, bound: nat, h: Handler<S>, inv: (S, nat) -> bool, ready: nat -> bool) {
    forall t, k: nat | inv(t, k) && k < bound && k + 1 in entries :: GatedAt(entries, h, inv, ready, t, k)
  }

  ghost predicate GatedAt<S(!new)>(entries: Entries, h: Handler<S>, inv: (S, nat) -> bool, ready: nat -> bool, t: S, k: nat)
    requires k + 1 in entries
  {
    && (ready(k + 1) ==> h(t, Item(k + 1, entries[k + 1])).Done? && inv(h(t, Item(k + 1, entries[k + 1])).state, k + 1))
    && (!ready(k + 1) ==> h(t, Item(k + 1, entries[k + 1])).Aborted?)
  }

  ghost predicate ReadyThrough(ready: nat -> bool, from: nat, to: nat) {
    forall q | from < q <= to :: ready(q)
  }

  lemma {:induction false} LoopGated<S(!new)>(entries: Entries, high: nat, h: Handler<S>, faults: nat -> Fault, limit: nat,
                                              p: Projector, s: S, processed: nat, attemptedFailed: bool,
                                              bound: nat, inv: (S, nat) -> bool, ready: nat -> bool)
    requires Contiguous(entries, high) && Consistent(entries, high, p) && processed <= limit
    requires attemptedFailed ==> !p.checkpoint.status.Failed?
    requires Gated(entries, bound, h, inv, ready) && inv(s, p.checkpoint.last)
    requires Min(p.checkpoint.last + (limit - processed), high) <= bound
    requires forall q :: faults(q) == NoFault
    ensures var b := RunFrom(entries, high, h, faults, limit, p, s, processed, attemptedFailed);
      var target := Min(p.checkpoint.last + (limit - processed), high);
      if ReadyThrough(ready, p.checkpoint.last, target)
      then b.Finished? && b.failureSeq.None? && b.projector.checkpoint.last == target
           && b.processed - processed == target - p.checkpoint.last
      else b == Abandoned(HandlerAborted)
    decreases high - p.checkpoint.last
  {
    hide Consistent, ReadyThrough, Gated;
    LastWithin(entries, high, p);
    var target := Min(p.checkpoint.last + (limit - processed), high);
    ReadyStep(ready, p.checkpoint.last, target);
    if processed < limit && p.checkpoint.last < high {
      var next := p.checkpoint.last + 1;
      ConsistentIsValid(entries, high, p);
      var item := Item(next, entries[next]);
      assert GatedAt(entries, h, inv, ready, s, p.checkpoint.last) by {
        GatedUse(entries, bound, h, inv, ready, s, p.checkpoint.last);
      }
      if ready(next) {
        AdvanceConsistent(entries, high, p);
        LoopGated(entries, high, h, faults, limit, Advance(p, item), h(s, item).state, processed + 1,
                  attemptedFailed || p.checkpoint.status.Failed?, bound, inv, ready);
      }
    }
  }

  lemma ReadyStep(ready: nat -> bool, from: nat, to: nat)
    ensures from >= to ==> ReadyThrough(ready, from, to)
    ensures from < to ==> (ReadyThrough(ready, from, to) <==> ready(from + 1) && ReadyThrough(ready, from + 1, to))
  {
  }

  lemma GatedUse<S(!new)>(entries: Entries, bound: nat, h: Handler<S>, inv: (S, nat) -> bool, ready: nat -> bool, s: S, k: nat)
    requires Gated(entries, bound, h, inv, ready) && inv(s, k) && k < bound && k + 1 in entries
    ensures GatedAt(entries, h, inv, ready, s, k)
  {
  }

  /** A batch that may run, of a handler that waits for others, advances by the whole batch when the
      handler is ready throughout and otherwise rolls back as a whole. */
  lemma BatchGated<S(!new)>(entries: Entries, high: nat, h: Handler<S>, faults: nat -> Fault, limit: nat, retry: bool,
                            p: Projector, s: S, bound: nat, inv: (S, nat) -> bool, ready: nat -> bool)
    requires Contiguous(entries, high) && Consistent(entries, high, p) && 1 <= limit <= MAX_LIMIT
    requires !p.checkpoint.status.Paused? && (p.checkpoint.status.Failed? ==> retry)
    requires Gated(entries, bound, h, inv, ready) && inv(s, p.checkpoint.last)
    requires Min(p.checkpoint.last + limit, high) <= bound
    requires forall q :: faults(q) == NoFault
    ensures var run := RunBatch(entries, high, h, faults, limit, retry, p, s);
      var target := Min(p.checkpoint.last + limit, high);
      if ReadyThrough(ready, p.checkpoint.last, target)
      then run.result.Ran? && run.projector.checkpoint.last == target
           && (run.projector == p || run.projector.checkpoint.status.Idle?)
      else run == Run(RunRaised(HandlerAborted), p, s)
  {
    hide Consistent, RunFrom, ReadyThrough, Gated;
    LastWithin(entries, high, p);
    ConsistentIsValid(entries, high, p);
    ActiveWithin(entries, high, p);
    LoopConsistent(entries, high, h, faults, limit, p, s, 0, false);
    LoopGated(entries, high, h, faults, limit, p, s, 0, false, bound, inv, ready);
  }
}
