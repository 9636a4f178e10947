/** What a batch reports and records, in terms of the calls it made. */
module RunReports {
  import opened Domain
  import opened ProjectionRunner

  /** The outcome a run reports says where it stands: caught up exactly at the captured high watermark,
      advanced exactly short of it, and paused, blocked or failed exactly for those reasons. A run is
      refused exactly for a limit outside 1 to 500 or because the handler raised. */
  lemma RunOutcome<S>(entries: Entries, high: nat, h: Handler<S>, faults: nat -> Fault, limit: int, retry: bool, p: Projector, s: S)
    requires Contiguous(entries, high) && Consistent(entries, high, p)
    ensures var run := RunBatch(entries, high, h, faults, limit, retry, p, s);
      var paused, blocked := p.checkpoint.status == Paused, p.checkpoint.status == Failed && !retry;
      && (run.result == RunRaised(InvalidLimit) <==> limit < 1 || limit > 500)
      && (run.result.RunRaised? ==> run.result.error == InvalidLimit || run.result.error == HandlerAborted)
      && (run.result.Ran? ==>
            var failed := run.result.outcome == FailedAt;
            && (run.result.outcome == PausedRun <==> paused)
            && (run.result.outcome == Blocked <==> blocked)
            && (run.result.outcome == CaughtUp <==> !paused && !blocked && !failed && run.result.ending == high)
            && (run.result.outcome == Advanced <==> !paused && !blocked && !failed && run.result.ending < high)
            && (failed ==> !paused && !blocked)
            && run.result.high == (if paused then p.checkpoint.last else high)
            && run.result.failureSeq == (if blocked || failed then Some(run.result.ending + 1) else None)
            && run.result.starting == p.checkpoint.last && run.result.ending == run.projector.checkpoint.last
            && run.result.processed == run.result.ending - run.result.starting)
  {
    hide Consistent, RunFrom;
    BatchConsistent(entries, high, h, faults, limit, retry, p, s);
    ConsistentIsValid(entries, high, p);
    ActiveWithin(entries, high, p);
    LastWithin(entries, high, p);
    if 1 <= limit <= MAX_LIMIT {
      LoopConsistent(entries, high, h, faults, limit, p, s, 0, false);
      var b := RunFrom(entries, high, h, faults, limit, p, s, 0, false);
      if b.Finished? {
        LastWithin(entries, high, b.projector);
      }
    }
  }

  // What the source calls an invariant error of the checkpoint row, and of its failure row against the log.
  predicate Unsound(p: Projector) {
    var c := p.checkpoint;
    if c.status != Failed then c.failureSeq != None
    else c.failureSeq != Some(c.last + 1) || c.last + 1 !in p.failures || !p.failures[c.last + 1].active
  }

  predicate Mismatched(entries: Entries, high: nat, p: Projector) {
    var q := p.checkpoint.last + 1;
    && p.checkpoint.status == Failed
    && !(q <= high && q in entries && q in p.failures
         && p.failures[q].tenant == entries[q].tenant && p.failures[q].obsId == entries[q].id)
  }

  lemma {:induction false} LoopStays<S>(entries: Entries, high: nat, h: Handler<S>, faults: nat -> Fault, limit: nat,
                                        p: Projector, s: S, processed: nat, attemptedFailed: bool)
    requires Contiguous(entries, high)
    requires p.checkpoint.status == Failed ==> !Unsound(p) && !Mismatched(entries, high, p) && !attemptedFailed
    ensures var b := RunFrom(entries, high, h, faults, limit, p, s, processed, attemptedFailed);
      && b != Abandoned(InconsistentState)
      && (b.Finished? ==> b.processed >= processed)
      && (b.Finished? && b.failureSeq == None && processed < limit && p.checkpoint.last < high ==> b.processed > processed)
    decreases high - p.checkpoint.last
  {
    if processed < limit && p.checkpoint.last < high {
      var next := p.checkpoint.last + 1;
      var item := Item(next, entries[next]);
      match Call(h, s, item, faults(next))
      case Aborted =>
      case Poison(code) =>
      case Done(s') =>
        LoopStays(entries, high, h, faults, limit, Advance(p, item), s', processed + 1,
                  attemptedFailed || p.checkpoint.status.Failed?);
    }
  }

  /** On any projector rows at all, a run over a contiguous log reports an inconsistent state exactly for
      an unsound checkpoint, a failure row that is not the log's entry, or a checkpoint past the log; a
      sound paused one is reported before the last two are looked at. A refused run changes nothing. */
  lemma InconsistencyReported<S>(entries: Entries, high: nat, h: Handler<S>, faults: nat -> Fault, limit: int, retry: bool,
                                 p: Projector, s: S)
    requires Contiguous(entries, high) && 1 <= limit <= 500
    ensures var run := RunBatch(entries, high, h, faults, limit, retry, p, s);
      && (run.result == RunRaised(InconsistentState) <==>
            || Unsound(p)
            || (p.checkpoint.status != Paused && (Mismatched(entries, high, p) || p.checkpoint.last > high)))
      && (run.result.RunRaised? ==> run.projector == p && run.state == s)
  {
    hide RunFrom;
    if !Unsound(p) && !Mismatched(entries, high, p) {
      LoopStays(entries, high, h, faults, limit, p, s, 0, false);
    }
    if p.checkpoint.last >= high {
      NothingToRun(entries, high, h, faults, limit, p, s);
    }
  }

  lemma NothingToRun<S>(entries: Entries, high: nat, h: Handler<S>, faults: nat -> Fault, limit: nat, p: Projector, s: S)
    requires p.checkpoint.last >= high
    ensures RunFrom(entries, high, h, faults, limit, p, s, 0, false) == Finished(p, s, 0, None)
  {
  }

  // How one call of the handler ends, the environment's fault included.
  ghost predicate Rejects<S>(h: Handler<S>, s: S, item: Item, fault: Fault, code: string) {
    || (fault == NoFault && h(s, item) == Poison(code))
    || (fault == UnexpectedException && code == "unhandled_projection_error")
  }

  ghost predicate Raises<S>(h: Handler<S>, s: S, item: Item, fault: Fault) {
    fault == InfrastructureError || (fault == NoFault && h(s, item) == Aborted)
  }

  // The failure row of a rejected item.
  ghost predicate FailureRecorded(p: Projector, item: Item, code: string) {
    && p.checkpoint.status == Failed && p.checkpoint.failureSeq == Some(item.seqNo)
    && item.seqNo in p.failures
    && p.failures[item.seqNo].active && p.failures[item.seqNo].code == code
  }

  // Rows of other items keep what they recorded.
  ghost predicate CodesKept(p: Projector, p': Projector, except: Option<nat>) {
    forall q | q in p.failures && except != Some(q) :: q in p'.failures && p'.failures[q].code == p.failures[q].code
  }

  lemma {:induction false} LoopReports<S>(entries: Entries, high: nat, h: Handler<S>, faults: nat -> Fault, limit: nat,
                                          p: Projector, s: S, processed: nat, attemptedFailed: bool)
    ensures var b := RunFrom(entries, high, h, faults, limit, p, s, processed, attemptedFailed);
      b.Finished? ==>
        && CodesKept(p, b.projector, b.failureSeq)
        && (b.failureSeq.Some? ==>
              var q := b.failureSeq.value;
              && q in entries && q == b.projector.checkpoint.last + 1
              && exists code :: Rejects(h, b.state, Item(q, entries[q]), faults(q), code)
                                && FailureRecorded(b.projector, Item(q, entries[q]), code))
    decreases high - p.checkpoint.last
  {
    if processed < limit && p.checkpoint.last < high && p.checkpoint.last + 1 in entries {
      var next := p.checkpoint.last + 1;
      var item := Item(next, entries[next]);
      match Call(h, s, item, faults(next))
      case Aborted =>
      case Poison(code) =>
        assert Rejects(h, s, item, faults(next), code);
      case Done(s') =>
        assert CodesKept(p, Advance(p, item), None);
        LoopReports(entries, high, h, faults, limit, Advance(p, item), s', processed + 1,
                    attemptedFailed || p.checkpoint.status.Failed?);
    }
  }

  /** A run that reports a failure stopped at an item that a handler error or an unexpected exception
      rejected, with the state as it was before that call, and recorded that error's code for it; the codes
      of other items stand. */
  lemma FailureReported<S>(entries: Entries, high: nat, h: Handler<S>, faults: nat -> Fault, limit: int, retry: bool, p: Projector, s: S)
    ensures var run := RunBatch(entries, high, h, faults, limit, retry, p, s);
      && CodesKept(p, run.projector, FailedSeq(run.result))
      && (FailedSeq(run.result).Some? ==>
            var q := FailedSeq(run.result).value;
            && q in entries && q == run.projector.checkpoint.last + 1
            && exists code :: Rejects(h, run.state, Item(q, entries[q]), faults(q), code)
                              && FailureRecorded(run.projector, Item(q, entries[q]), code))
  {
    hide RunFrom;
    if 1 <= limit <= MAX_LIMIT {
      LoopReports(entries, high, h, faults, limit, p, s, 0, false);
    }
  }

  /** A run whose calls never raise is refused only for its limit. */
  lemma {:induction false} LoopRaises<S>(entries: Entries, high: nat, h: Handler<S>, faults: nat -> Fault, limit: nat,
                                         p: Projector, s: S, processed: nat, attemptedFailed: bool)
    ensures RunFrom(entries, high, h, faults, limit, p, s, processed, attemptedFailed) == Abandoned(HandlerAborted) ==>
      exists q, t :: q in entries && p.checkpoint.last < q <= high && Raises(h, t, Item(q, entries[q]), faults(q))
    decreases high - p.checkpoint.last
  {
    if processed < limit && p.checkpoint.last < high && p.checkpoint.last + 1 in entries {
      var next := p.checkpoint.last + 1;
      var item := Item(next, entries[next]);
      match Call(h, s, item, faults(next))
      case Aborted =>
        assert Raises(h, s, item, faults(next));
      case Poison(code) =>
      case Done(s') =>
        LoopRaises(entries, high, h, faults, limit, Advance(p, item), s', processed + 1,
                   attemptedFailed || p.checkpoint.status.Failed?);
    }
  }

  lemma RaiseReported<S>(entries: Entries, high: nat, h: Handler<S>, faults: nat -> Fault, limit: int, retry: bool, p: Projector, s: S)
    ensures RunBatch(entries, high, h, faults, limit, retry, p, s).result == RunRaised(HandlerAborted) ==>
      exists q, t :: q in entries && p.checkpoint.last < q <= high && Raises(h, t, Item(q, entries[q]), faults(q))
  {
    hide RunFrom;
    if 1 <= limit <= MAX_LIMIT {
      LoopRaises(entries, high, h, faults, limit, p, s, 0, false);
    }
  }

  // The code of the last batch that failed at q.
  ghost function LastCode<S>(h: Handler<S>, initial: S, ops: seq<Op>, q: nat): Option<string> {
    if ops == [] then None
    else
      var init, last := ops[..|ops| - 1], ops[|ops| - 1];
      var w := History(h, initial, init);
      if !last.Batch? then LastCode(h, initial, init, q)
      else
        var run := RunBatch(w.entries, w.high, h, last.faults, last.limit, last.retry, w.projector, w.state);
        if FailedSeq(run.result) == Some(q) && q in w.entries
           && exists code :: Rejects(h, run.state, Item(q, w.entries[q]), last.faults(q), code)
        then Some(RejectedCode(h, run.state, Item(q, w.entries[q]), last.faults(q)))
        else LastCode(h, initial, init, q)
  }

  ghost function RejectedCode<S>(h: Handler<S>, s: S, item: Item, fault: Fault): string
    requires exists code :: Rejects(h, s, item, fault, code)
  {
    var code :| Rejects(h, s, item, fault, code);
    code
  }

  /** Over any history, an item's failure row holds the code of the last call that failed there. */
  lemma {:induction false} LastCodeRecorded<S>(h: Handler<S>, initial: S, ops: seq<Op>, q: nat)
    ensures var p := History(h, initial, ops).projector;
      (q in p.failures <==> LastCode(h, initial, ops, q).Some?)
      && (q in p.failures ==> LastCode(h, initial, ops, q) == Some(p.failures[q].code))
  {
    hide RunBatch;
    if ops != [] {
      var init, last := ops[..|ops| - 1], ops[|ops| - 1];
      LastCodeRecorded(h, initial, init, q);
      var w := History(h, initial, init);
      if last.Batch? {
        var run := RunBatch(w.entries, w.high, h, last.faults, last.limit, last.retry, w.projector, w.state);
        AttemptsPositive(h, initial, init, q);
        BatchCode(w.entries, w.high, h, last.faults, last.limit, last.retry, w.projector, w.state, q);
        assert History(h, initial, ops).projector == run.projector;
        if FailedSeq(run.result) == Some(q) {
          RejectedOnce(h, run.state, Item(q, w.entries[q]), last.faults(q), run.projector.failures[q].code);
        }
      }
    }
  }

  // What one batch does to the code of one row.
  lemma BatchCode<S>(entries: Entries, high: nat, h: Handler<S>, faults: nat -> Fault, limit: int, retry: bool, p: Projector, s: S, q: nat)
    requires q in p.failures ==> p.failures[q].attempts >= 1
    ensures var run := RunBatch(entries, high, h, faults, limit, retry, p, s);
      if FailedSeq(run.result) == Some(q) then
        && q in entries && q in run.projector.failures
        && Rejects(h, run.state, Item(q, entries[q]), faults(q), run.projector.failures[q].code)
      else
        && (q in run.projector.failures <==> q in p.failures)
        && (q in p.failures ==> run.projector.failures[q].code == p.failures[q].code)
  {
    hide RunBatch;
    FailureReported(entries, high, h, faults, limit, retry, p, s);
    BatchCounts(entries, high, h, faults, limit, retry, p, s);
    BatchRows(entries, high, h, faults, limit, retry, p, s, q);
    var run := RunBatch(entries, high, h, faults, limit, retry, p, s);
    if FailedSeq(run.result) != Some(q) {
      assert AttemptsOf(run.projector, q) == AttemptsOf(p, q);
    }
  }

  lemma RejectedOnce<S>(h: Handler<S>, s: S, item: Item, fault: Fault, code: string)
    requires Rejects(h, s, item, fault, code)
    ensures RejectedCode(h, s, item, fault) == code
  {
  }

  lemma {:induction false} AttemptsPositive<S>(h: Handler<S>, initial: S, ops: seq<Op>, q: nat)
    ensures q in History(h, initial, ops).projector.failures ==> History(h, initial, ops).projector.failures[q].attempts >= 1
  {
    hide RunBatch;
    if ops != [] {
      AttemptsPositive(h, initial, ops[..|ops| - 1], q);
      var w, last := History(h, initial, ops[..|ops| - 1]), ops[|ops| - 1];
      if last.Batch? {
        BatchRows(w.entries, w.high, h, last.faults, last.limit, last.retry, w.projector, w.state, q);
      }
    }
  }

  lemma {:induction false} LoopRows<S>(entries: Entries, high: nat, h: Handler<S>, faults: nat -> Fault, limit: nat,
                                       p: Projector, s: S, processed: nat, attemptedFailed: bool, q: nat)
    requires q in p.failures ==> p.failures[q].attempts >= 1
    ensures var b := RunFrom(entries, high, h, faults, limit, p, s, processed, attemptedFailed);
      b.Finished? && q in b.projector.failures ==> b.projector.failures[q].attempts >= 1
    decreases high - p.checkpoint.last
  {
    if processed < limit && p.checkpoint.last < high && p.checkpoint.last + 1 in entries {
      var next := p.checkpoint.last + 1;
      var item := Item(next, entries[next]);
      match Call(h, s, item, faults(next))
      case Aborted =>
      case Poison(code) =>
      case Done(s') =>
        LoopRows(entries, high, h, faults, limit, Advance(p, item), s', processed + 1,
                 attemptedFailed || p.checkpoint.status.Failed?, q);
    }
  }

  lemma BatchRows<S>(entries: Entries, high: nat, h: Handler<S>, faults: nat -> Fault, limit: int, retry: bool, p: Projector, s: S, q: nat)
    requires q in p.failures ==> p.failures[q].attempts >= 1
    ensures var run := RunBatch(entries, high, h, faults, limit, retry, p, s);
      q in run.projector.failures ==> run.projector.failures[q].attempts >= 1
  {
    hide RunFrom;
    if 1 <= limit <= MAX_LIMIT {
      LoopRows(entries, high, h, faults, limit, p, s, 0, false, q);
    }
  }

  /* ----- Operator commands ----- */

  /** Pausing a projector that has not failed makes every later run report it paused and change nothing,
      until it is resumed; pausing and resuming a failed one is refused. */
  lemma PauseHolds<S>(entries: Entries, high: nat, h: Handler<S>, faults: nat -> Fault, limit: int, retry: bool, p: Projector, s: S)
    requires Consistent(entries, high, p) && 1 <= limit <= 500
    ensures PauseRows(p).0 <==> p.checkpoint.status != Failed
    ensures ResumeRows(p).0 <==> p.checkpoint.status != Failed
    ensures p.checkpoint.status == Failed ==> PauseRows(p).1 == p && ResumeRows(p).1 == p
    ensures p.checkpoint.status != Failed ==>
      var run := RunBatch(entries, high, h, faults, limit, retry, PauseRows(p).1, s);
      && run.result.Ran? && run.result.outcome == PausedRun && run.projector == PauseRows(p).1 && run.state == s
      && PauseRows(p).1.checkpoint.last == p.checkpoint.last && PauseRows(p).1.failures == p.failures
    ensures p.checkpoint.status != Failed ==>
      && ResumeRows(p).1.checkpoint == Checkpoint(p.checkpoint.last, Idle, None) && ResumeRows(p).1.failures == p.failures
  {
  }
}
