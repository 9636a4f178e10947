/** The live stream: a scoped scan of the ingest log in bounded pages, and the loop that emits what it
    finds with resumable cursors while the log grows. */
module ObservationStream {
  import opened Domain
  import opened CorrelationHistory
  import opened Paging

  // The sequence entries, each outer-joined with its observation.
  type JoinedEntries = map<nat, Option<Observation>>

  const MAX_SCAN_LIMIT := 500

  datatype ScanResult =
    | CursorError
    | InvariantError
    | Scanned(observations: seq<Item>, next: nat, hasMore: bool)

  predicate InScope(o: Observation, tenant: string, source: string) {
    o.tenant == tenant && o.source == source
  }

  // The in-scope entries with positions in (from, to], in order.
  function Scoped(entries: JoinedEntries, tenant: string, source: string, from: nat, to: nat): (items: seq<Item>)
    ensures forall it | it in items :: from < it.seqNo <= to
  {
    if to <= from then []
    else
      var last := if to in entries && entries[to].Some? && InScope(entries[to].value, tenant, source)
        then [Item(to, entries[to].value)] else [];
      Scoped(entries, tenant, source, from, to - 1) + last
  }

  // func.max over the entries agrees with the high watermark.
  predicate MaxIs(entries: JoinedEntries, high: nat) {
    (high == 0 || high in entries) && forall q | q in entries :: q <= high
  }

  // The entries from 1 to high, all joined.
  ghost predicate Complete(entries: JoinedEntries, high: nat) {
    (forall q :: q in entries <==> 1 <= q <= high) && forall q | q in entries :: entries[q].Some?
  }

  function Min(a: nat, b: nat): nat {
    if a < b then a else b
  }

  predicate Below(a: nat, b: nat) {
    a < b
  }

  function PositionsIn(entries: JoinedEntries, from: nat, to: nat): set<nat> {
    set q | q in entries && from < q <= to
  }

  ghost predicate Joins(entries: JoinedEntries, from: nat, to: nat) {
    forall q | from < q <= to :: q in entries && entries[q].Some?
  }

  // Ascending positions after `after`, as far as they have been checked to be contiguous.
  lemma NextRow(entries: JoinedEntries, high: nat, after: nat, limit: nat, page: seq<nat>, i: nat)
    requires IsPage(PositionsIn(entries, after, high), Below, None, limit, page)
    requires i < |page| && forall j | 0 <= j < i :: page[j] == after + 1 + j
    ensures page[i] in entries && after < page[i] <= high
    ensures Complete(entries, high) ==> page[i] == after + 1 + i
  {
    assert page[i] in page;
    var q := after + 1 + i;
    assert page[i] >= q by {
      if i > 0 {
        assert Below(page[i - 1], page[i]);
      }
    }
    if Complete(entries, high) {
      assert q in PositionsIn(entries, after, high) && !Below(page[i], q);
      assert forall l | i < l < |page| :: Below(page[i], page[l]);
      assert q in page;
    }
  }

  lemma FullPage(entries: JoinedEntries, high: nat, after: nat, limit: nat, page: seq<nat>)
    requires IsPage(PositionsIn(entries, after, high), Below, None, limit, page)
    requires forall j | 0 <= j < |page| :: page[j] == after + 1 + j
    ensures |page| <= limit
    ensures |page| < limit && (Complete(entries, high) || (page == [] && MaxIs(entries, high))) && after <= high ==>
      after + |page| == high
  {
    if |page| > 0 {
      assert page[|page| - 1] in page;
    }
    var q := after + |page| + 1;
    assert q !in page;
    if |page| < limit {
      assert q !in PositionsIn(entries, after, high);
      assert page == [] ==> high !in page && high !in PositionsIn(entries, after, high);
    }
  }

  /** scan_scoped_sequence_page, on arbitrary tables: what it returns is every in-scope entry up to
      the next position, with no entry before that missing; on a complete log it fails only for a
      cursor ahead of it, and advances by the whole page. */
  method Scan(entries: JoinedEntries, high: nat, tenant: string, source: string, after: int, limit: int)
    returns (r: ScanResult)
    ensures r == CursorError <==>
      || after < 0 || limit < 1 || limit > 500
      || ((high == 0 || high in entries) && (forall q | q in entries :: q <= high) && after > high)
    ensures r.Scanned? ==>
      && (high == 0 || high in entries) && (forall q | q in entries :: q <= high)
      && 0 <= after <= r.next <= high && r.next <= after + limit
      && Joins(entries, after, r.next)
      && r.observations == Scoped(entries, tenant, source, after, r.next)
      && (r.hasMore <==> r.next < high)
    ensures 0 <= after && 1 <= limit <= 500 && Complete(entries, high) ==>
      if after > high then r == CursorError
      else r.Scanned? && r.next == Min(after + limit, high) && (r.hasMore <==> r.next < high)
  {
    hide IsPage;
    if after < 0 || limit < 1 || limit > MAX_SCAN_LIMIT {
      return CursorError;
    }
    if !MaxIs(entries, high) {
      return InvariantError;
    }
    if after > high {
      return CursorError;
    }
    var rows := PositionsIn(entries, after, high);
    var page := Query(rows, Below, None, limit);
    if page == [] {
      FullPage(entries, high, after, limit, page);
      return Scanned([], after, false);
    }
    var observations: seq<Item> := [];
    for i := 0 to |page|
      invariant forall j | 0 <= j < i :: page[j] == after + 1 + j
      invariant Joins(entries, after, after + i)
      invariant observations == Scoped(entries, tenant, source, after, after + i)
    {
      NextRow(entries, high, after, limit, page, i);
      var q := page[i];
      if q != after + 1 + i {
        return InvariantError;
      }
      if entries[q].None? {
        return InvariantError;
      }
      if InScope(entries[q].value, tenant, source) {
        observations := observations + [Item(q, entries[q].value)];
      }
    }
    FullPage(entries, high, after, limit, page);
    var next := page[|page| - 1];
    r := Scanned(observations, next, next < high);
  }

  /* ----- The stream ----- */

  datatype Frame =
    | ReadyFrame(cursor: nat)
    | ObservationFrame(cursor: nat, obs: Observation)
    | CheckpointFrame(cursor: nat)
    | Heartbeat
    | StreamError
    | StreamClosed

  predicate HasCursor(f: Frame) {
    f.ReadyFrame? || f.ObservationFrame? || f.CheckpointFrame?
  }

  // What a due revalidation of the collector finds.
  datatype AuthCheck = NotDue | Active | Inactive | CheckFailed

  // The observations among the frames, with their positions.
  function Delivered(frames: seq<Frame>): seq<Item> {
    if frames == [] then []
    else
      var f := frames[|frames| - 1];
      Delivered(frames[..|frames| - 1]) + (if f.ObservationFrame? then [Item(f.cursor, f.obs)] else [])
  }

  function Joined(log: seq<Observation>): JoinedEntries {
    map k: nat | 1 <= k <= |log| :: Some(ItemAt(log, k).obs)
  }

  // The in-scope observations of the log at positions in (from, to].
  function ScopedLog(log: seq<Observation>, tenant: string, source: string, from: nat, to: nat): seq<Item> {
    Scoped(Joined(log), tenant, source, from, to)
  }

  lemma JoinedComplete(log: seq<Observation>)
    ensures Complete(Joined(log), |log|)
  {
  }

  lemma {:induction false} ScopedStable(log: seq<Observation>, log': seq<Observation>, tenant: string, source: string, from: nat, to: nat)
    requires log <= log' && (to <= |log| || to <= from)
    ensures ScopedLog(log', tenant, source, from, to) == ScopedLog(log, tenant, source, from, to)
  {
    if to > from {
      ScopedStable(log, log', tenant, source, from, to - 1);
    }
  }

  /** Two adjacent stretches deliver what the whole stretch does. */
  lemma {:induction false} ScopedConcat(entries: JoinedEntries, tenant: string, source: string, from: nat, mid: nat, to: nat)
    requires from <= mid <= to
    ensures Scoped(entries, tenant, source, from, mid) + Scoped(entries, tenant, source, mid, to)
         == Scoped(entries, tenant, source, from, to)
  {
    if to > mid {
      ScopedConcat(entries, tenant, source, from, mid, to - 1);
    }
  }

  /** What a scan collects is exactly the entries there of the tenant and from the source. */
  lemma {:induction false} ScopedRead(entries: JoinedEntries, tenant: string, source: string, from: nat, to: nat, it: Item)
    ensures it in Scoped(entries, tenant, source, from, to) <==>
      && from < it.seqNo <= to
      && it.seqNo in entries && entries[it.seqNo] == Some(it.obs)
      && it.obs.tenant == tenant && it.obs.source == source
  {
    if to > from {
      ScopedRead(entries, tenant, source, from, to - 1, it);
    }
  }

  /** In order, once each, and exactly the entries of the tenant and from the source. */
  lemma {:induction false} ScopedExact(log: seq<Observation>, tenant: string, source: string, from: nat, to: nat)
    requires to <= |log|
    ensures var items := ScopedLog(log, tenant, source, from, to);
      && (forall i, j | 0 <= i < j < |items| :: items[i].seqNo < items[j].seqNo)
      && (forall it :: it in items <==>
            from < it.seqNo <= to && it.obs == log[it.seqNo - 1] && it.obs.tenant == tenant && it.obs.source == source)
  {
    if to > from {
      ScopedExact(log, tenant, source, from, to - 1);
    }
  }

  // Every cursor among the frames covers all in-scope entries up to it.
  ghost predicate CursorsComplete(log: seq<Observation>, tenant: string, source: string, start: nat, frames: seq<Frame>) {
    forall i | 0 <= i < |frames| && HasCursor(frames[i]) ::
      && start <= frames[i].cursor && (frames[i].cursor <= |log| || frames[i].cursor == start)
      && Delivered(frames[..i + 1]) == ScopedLog(log, tenant, source, start, frames[i].cursor)
  }

  // The last cursor the client has seen.
  function LastCursor(frames: seq<Frame>): Option<nat> {
    if frames == [] then None
    else if HasCursor(frames[|frames| - 1]) then Some(frames[|frames| - 1].cursor)
    else LastCursor(frames[..|frames| - 1])
  }

  // What the client has received is everything in scope between the start and the position, and the
  // position is the last cursor it has seen.
  ghost predicate Faithful(log: seq<Observation>, tenant: string, source: string, start: nat, position: nat, frames: seq<Frame>) {
    && start <= position && (position <= |log| || position == start)
    && LastCursor(frames) == Some(position)
    && Delivered(frames) == ScopedLog(log, tenant, source, start, position)
    && CursorsComplete(log, tenant, source, start, frames)
  }

  lemma DeliveredPlus(frames: seq<Frame>, f: Frame)
    ensures Delivered(frames + [f]) == Delivered(frames) + (if f.ObservationFrame? then [Item(f.cursor, f.obs)] else [])
  {
    assert (frames + [f])[..|frames|] == frames;
  }

  /** Emitting a frame keeps the stream faithful when its cursor, if it has one, is the new position
      and what lies between is what it carries. */
  lemma EmitFaithful(log: seq<Observation>, tenant: string, source: string, start: nat, position: nat, position': nat,
                     frames: seq<Frame>, f: Frame)
    requires Faithful(log, tenant, source, start, position, frames)
    requires position <= position' && (position' <= |log| || position' == position)
    requires if HasCursor(f) then f.cursor == position' else position' == position
    requires ScopedLog(log, tenant, source, position, position') == (if f.ObservationFrame? then [Item(f.cursor, f.obs)] else [])
    ensures Faithful(log, tenant, source, start, position', frames + [f])
  {
    hide Delivered, ScopedLog;
    DeliveredPlus(frames, f);
    assert (frames + [f])[..|frames|] == frames;
    ScopedJoin(log, tenant, source, start, position, position');
    var frames' := frames + [f];
    forall i | 0 <= i < |frames'| && HasCursor(frames'[i])
      ensures start <= frames'[i].cursor && (frames'[i].cursor <= |log| || frames'[i].cursor == start)
      ensures Delivered(frames'[..i + 1]) == ScopedLog(log, tenant, source, start, frames'[i].cursor)
    {
      if i < |frames| {
        assert frames'[..i + 1] == frames[..i + 1];
      } else {
        assert frames'[..i + 1] == frames';
      }
    }
  }

  lemma ScopedJoin(log: seq<Observation>, tenant: string, source: string, from: nat, mid: nat, to: nat)
    requires from <= mid <= to
    ensures ScopedLog(log, tenant, source, from, to)
         == ScopedLog(log, tenant, source, from, mid) + ScopedLog(log, tenant, source, mid, to)
  {
    ScopedConcat(Joined(log), tenant, source, from, mid, to);
  }

  lemma FaithfulGrows(log: seq<Observation>, log': seq<Observation>, tenant: string, source: string, start: nat, position: nat,
                      frames: seq<Frame>)
    requires Faithful(log, tenant, source, start, position, frames) && log <= log'
    ensures Faithful(log', tenant, source, start, position, frames)
  {
    hide Delivered, ScopedLog;
    ScopedStable(log, log', tenant, source, start, position);
    forall i | 0 <= i < |frames| && HasCursor(frames[i])
      ensures Delivered(frames[..i + 1]) == ScopedLog(log', tenant, source, start, frames[i].cursor)
    {
      ScopedStable(log, log', tenant, source, start, frames[i].cursor);
    }
  }

  function FramesOf(items: seq<Item>): (frames: seq<Frame>)
    ensures |frames| == |items|
  {
    seq(|items|, i requires 0 <= i < |items| => ObservationFrame(items[i].seqNo, items[i].obs))
  }

  // The position after emitting the items.
  function Reached(position: nat, items: seq<Item>): nat {
    if items == [] then position else items[|items| - 1].seqNo
  }

  // What a page makes an undisturbed turn emit: its observations, a checkpoint if it reaches past the
  // last of them, and perhaps a heartbeat.
  function PageFrames(items: seq<Item>, position: nat, next: nat, heartbeat: bool): seq<Frame> {
    FramesOf(items)
    + (if next > Reached(position, items) then [CheckpointFrame(next)] else [])
    + (if heartbeat then [Heartbeat] else [])
  }

  // The frames of an undisturbed turn; a heartbeat can only be due at the end of the log.
  function TurnFrames(log: seq<Observation>, tenant: string, source: string, position: nat, limit: nat, heartbeatDue: bool): seq<Frame> {
    var next := Min(position + limit, |log|);
    PageFrames(ScopedLog(log, tenant, source, position, next), position, next, next == |log| && heartbeatDue)
  }

  ghost predicate Undisturbed(auth: nat -> AuthCheck) {
    forall n :: auth(n) == NotDue || auth(n) == Active
  }

  // The logs a run of turns meets: each extends the ones before it.
  ghost predicate Growing(first: seq<Observation>, logs: seq<seq<Observation>>) {
    forall i | 0 <= i < |logs| :: Latest(first, logs[..i]) <= logs[i]
  }

  function Latest(first: seq<Observation>, logs: seq<seq<Observation>>): seq<Observation> {
    if logs == [] then first else logs[|logs| - 1]
  }

  lemma LatestGrows(first: seq<Observation>, logs: seq<seq<Observation>>, i: nat)
    requires Growing(first, logs) && i < |logs|
    ensures Latest(first, logs[..i]) <= logs[i] && Latest(first, logs[..i + 1]) == logs[i]
  {
  }

  lemma FaithfulSays(log: seq<Observation>, tenant: string, source: string, start: nat, position: nat, frames: seq<Frame>)
    requires Faithful(log, tenant, source, start, position, frames)
    ensures Delivered(frames) == ScopedLog(log, tenant, source, start, position) && LastCursor(frames) == Some(position)
  {
  }

  /** What a faithful stream has delivered, in order and once each: the log's entries after the start, up to
      the position, of its tenant and from its source. */
  lemma DeliveredRead(log: seq<Observation>, tenant: string, source: string, start: nat, position: nat, frames: seq<Frame>)
    requires Faithful(log, tenant, source, start, position, frames)
    ensures var items := Delivered(frames);
      && (forall i, j | 0 <= i < j < |items| :: items[i].seqNo < items[j].seqNo)
      && (forall it :: it in items <==>
            && start < it.seqNo <= position && it.seqNo <= |log| && it.obs == log[it.seqNo - 1]
            && it.obs.tenant == tenant && it.obs.source == source)
  {
    hide Delivered, CursorsComplete, LastCursor;
    if position <= |log| {
      ScopedExact(log, tenant, source, start, position);
    } else {
      NothingBetween(log, tenant, source, position);
    }
  }

  // Where undisturbed turns over the logs leave the position, and what they emit.
  function PositionAfter(position: nat, limit: nat, logs: seq<seq<Observation>>): nat {
    if logs == [] then position
    else Min(PositionAfter(position, limit, logs[..|logs| - 1]) + limit, |logs[|logs| - 1]|)
  }

  function FramesAfter(tenant: string, source: string, position: nat, limit: nat, logs: seq<seq<Observation>>,
                       heartbeatDue: nat -> bool): seq<Frame> {
    if logs == [] then []
    else
      var n := |logs| - 1;
      FramesAfter(tenant, source, position, limit, logs[..n], heartbeatDue)
      + TurnFrames(logs[n], tenant, source, PositionAfter(position, limit, logs[..n]), limit, heartbeatDue(n))
  }

  /** Nothing waits forever: whatever the log already held is passed after enough turns, however fast it
      grows. */
  lemma {:induction false} EventuallyPassed(position: nat, limit: nat, logs: seq<seq<Observation>>, held: nat)
    requires position <= held && forall i | 0 <= i < |logs| :: held <= |logs[i]|
    ensures PositionAfter(position, limit, logs) >= Min(position + limit * |logs|, held)
  {
    if logs != [] {
      var init := logs[..|logs| - 1];
      assert forall i | 0 <= i < |init| :: init[i] == logs[i];
      EventuallyPassed(position, limit, init, held);
      OneMore(limit, |init|);
    }
  }

  lemma OneMore(limit: nat, n: nat)
    ensures limit * (n + 1) == limit * n + limit
  {
  }

  // Where an undisturbed run of turns stands.
  ghost predicate Progressed(tenant: string, source: string, from: nat, first: seq<Observation>, logs: seq<seq<Observation>>,
                             limit: nat, heartbeatDue: nat -> bool, position: nat, sent: seq<Frame>) {
    && position == PositionAfter(from, limit, logs)
    && position <= |Latest(first, logs)|
    && sent == FramesAfter(tenant, source, from, limit, logs, heartbeatDue)
  }

  lemma ProgressedFurther(tenant: string, source: string, from: nat, first: seq<Observation>, logs: seq<seq<Observation>>, i: nat,
                          limit: nat, heartbeatDue: nat -> bool, position: nat, sent: seq<Frame>)
    requires i < |logs| && Progressed(tenant, source, from, first, logs[..i], limit, heartbeatDue, position, sent)
    ensures Progressed(tenant, source, from, first, logs[..i + 1], limit, heartbeatDue, Min(position + limit, |logs[i]|),
                       sent + TurnFrames(logs[i], tenant, source, position, limit, heartbeatDue(i)))
  {
    hide TurnFrames;
    assert logs[..i + 1][..i] == logs[..i] && logs[..i + 1][i] == logs[i];
  }

  lemma NothingYet(tenant: string, source: string, from: nat, first: seq<Observation>, limit: nat, heartbeatDue: nat -> bool)
    requires from <= |first|
    ensures Progressed(tenant, source, from, first, [], limit, heartbeatDue, from, [])
  {
  }

  lemma WithinLog(tenant: string, source: string, from: nat, first: seq<Observation>, logs: seq<seq<Observation>>, limit: nat,
                  heartbeatDue: nat -> bool, position: nat, sent: seq<Frame>)
    requires Progressed(tenant, source, from, first, logs, limit, heartbeatDue, position, sent)
    ensures position <= |Latest(first, logs)| && position == PositionAfter(from, limit, logs)
    ensures sent == FramesAfter(tenant, source, from, limit, logs, heartbeatDue)
  {
  }

  // No turn is disturbed.
  ghost predicate Calm(auth: nat -> nat -> AuthCheck, disconnected: nat -> bool) {
    forall i :: !disconnected(i) && Undisturbed(auth(i))
  }

  lemma CalmTurn(auth: nat -> nat -> AuthCheck, disconnected: nat -> bool, i: nat)
    requires Calm(auth, disconnected)
    ensures !disconnected(i) && Undisturbed(auth(i))
  {
  }

  class EventStream {
    const tenant: string
    const source: string
    const start: nat
    var position: nat
    var frames: seq<Frame>

    ghost predicate Valid(log: seq<Observation>)
      reads this
    {
      Faithful(log, tenant, source, start, position, frames)
    }

    constructor (tenant: string, source: string, startingPosition: nat, ghost log: seq<Observation>)
      ensures this.tenant == tenant && this.source == source && start == startingPosition
      ensures position == start && frames == [ReadyFrame(start)] && Valid(log)
    {
      this.tenant, this.source, start := tenant, source, startingPosition;
      position := startingPosition;
      frames := [ReadyFrame(startingPosition)];
      new;
      assert frames[..0] == [] && frames[..1] == frames;
    }

    method Emit(f: Frame)
      modifies this`frames
      ensures frames == old(frames) + [f]
    {
      frames := frames + [f];
    }

    // revalidate_if_due; false ends the stream.
    method Revalidate(check: AuthCheck, ghost log: seq<Observation>) returns (open: bool)
      requires Valid(log)
      modifies this`frames
      ensures Valid(log) && old(frames) <= frames
      ensures open <==> check == NotDue || check == Active
      ensures frames == old(frames) + match check
                                      case CheckFailed => [StreamError]
                                      case Inactive => [StreamClosed]
                                      case _ => []
    {
      hide Faithful;
      if check == CheckFailed {
        EmitQuiet(log, StreamError);
        return false;
      }
      if check == Inactive {
        EmitQuiet(log, StreamClosed);
        return false;
      }
      open := true;
    }

    /** One turn of the loop against the log as it now is. Unless the client is gone or the collector
        no longer authorised, the position advances by a whole page; wherever the turn ends, the
        stream is faithful. */
    method Turn(log: seq<Observation>, limit: nat, auth: nat -> AuthCheck, disconnected: bool, heartbeatDue: bool)
      returns (open: bool)
      requires Valid(log) && 1 <= limit <= MAX_SCAN_LIMIT
      modifies this
      ensures Valid(log) && old(frames) <= frames && old(position) <= position
      ensures disconnected ==> !open
      ensures !disconnected && old(position) <= |log| && Undisturbed(auth) ==>
        && open && position == Min(old(position) + limit, |log|)
        && frames == old(frames) + TurnFrames(log, tenant, source, old(position), limit, heartbeatDue)
      ensures old(position) > |log| ==> !open && position == old(position)
    {
      hide Faithful, Scoped, Complete, Joined, PageFrames;
      if disconnected {
        return false;
      }
      open := Revalidate(auth(0), log);
      if !open {
        return;
      }
      JoinedComplete(log);
      var page := Scan(Joined(log), |log|, tenant, source, position, limit);
      if !page.Scanned? {
        EmitQuiet(log, StreamError);
        return false;
      }
      open := EmitPage(log, page.observations, page.next, !page.hasMore && heartbeatDue, auth);
    }

    // A page's observations, a checkpoint if it reaches further, and a heartbeat if one is due.
    method EmitPage(ghost log: seq<Observation>, items: seq<Item>, next: nat, heartbeat: bool, auth: nat -> AuthCheck)
      returns (open: bool)
      requires Valid(log) && position <= next <= |log| && items == ScopedLog(log, tenant, source, position, next)
      modifies this
      ensures Valid(log) && old(frames) <= frames && old(position) <= position
      ensures Undisturbed(auth) ==>
        open && position == next && frames == old(frames) + PageFrames(items, old(position), next, heartbeat)
    {
      hide Faithful, ScopedLog;
      open := EmitObservations(log, items, next, auth);
      if !open {
        return;
      }
      if next > position {
        open := Revalidate(auth(1 + |items|), log);
        if !open {
          return;
        }
        EmitFaithful(log, tenant, source, start, position, next, frames, CheckpointFrame(next));
        position := next;
        Emit(CheckpointFrame(position));
      }
      if heartbeat {
        open := Revalidate(auth(2 + |items|), log);
        if !open {
          return;
        }
        EmitQuiet(log, Heartbeat);
      }
    }

    /** The whole loop against the logs its turns meet. Whenever it ends, the client has received exactly
        the in-scope entries of the log between the start and the last cursor, in order, once each; a run
        nothing disturbs has emitted exactly the frames of its pages. */
    method Follow(ghost first: seq<Observation>, logs: seq<seq<Observation>>, limit: nat, auth: nat -> nat -> AuthCheck,
                  disconnected: nat -> bool, heartbeatDue: nat -> bool)
      returns (open: bool, turns: nat)
      requires Valid(first) && Growing(first, logs) && 1 <= limit <= MAX_SCAN_LIMIT
      modifies this
      ensures turns <= |logs| && (open ==> turns == |logs|)
      ensures Valid(Latest(first, logs[..turns])) && old(frames) <= frames && old(position) <= position
      ensures Delivered(frames) == ScopedLog(Latest(first, logs[..turns]), tenant, source, start, position)
      ensures LastCursor(frames) == Some(position)
      ensures forall it :: it in Delivered(frames) <==>
        && start < it.seqNo <= position && it.seqNo <= |Latest(first, logs[..turns])|
        && it.obs == Latest(first, logs[..turns])[it.seqNo - 1] && it.obs.tenant == tenant && it.obs.source == source
      ensures old(position) <= |first| && Calm(auth, disconnected) ==>
        && open && position == PositionAfter(old(position), limit, logs)
        && frames == old(frames) + FramesAfter(tenant, source, old(position), limit, logs, heartbeatDue)
    {
      hide Faithful, ScopedLog, TurnFrames, Calm, Progressed, Growing, Undisturbed, Delivered, LastCursor, FramesAfter, PositionAfter;
      open, turns := true, 0;
      ghost var calm := old(position) <= |first| && Calm(auth, disconnected);
      ghost var sent: seq<Frame> := [];
      assert logs[..0] == [];
      if calm {
        NothingYet(tenant, source, position, first, limit, heartbeatDue);
      }
      while open && turns < |logs|
        invariant turns <= |logs| && Valid(Latest(first, logs[..turns]))
        invariant old(frames) <= frames && old(position) <= position
        invariant calm ==> open && frames == old(frames) + sent
        invariant calm ==> Progressed(tenant, source, old(position), first, logs[..turns], limit, heartbeatDue, position, sent)
        decreases |logs| - turns
      {
        ghost var log := logs[turns];
        LatestGrows(first, logs, turns);
        FaithfulGrows(Latest(first, logs[..turns]), log, tenant, source, start, position, frames);
        ghost var before := position;
        open := Turn(logs[turns], limit, auth(turns), disconnected(turns), heartbeatDue(turns));
        if calm {
          CalmTurn(auth, disconnected, turns);
          WithinLog(tenant, source, old(position), first, logs[..turns], limit, heartbeatDue, before, sent);
          ProgressedFurther(tenant, source, old(position), first, logs, turns, limit, heartbeatDue, before, sent);
          sent := sent + TurnFrames(log, tenant, source, before, limit, heartbeatDue(turns));
        }
        turns := turns + 1;
      }
      FaithfulSays(Latest(first, logs[..turns]), tenant, source, start, position, frames);
      DeliveredRead(Latest(first, logs[..turns]), tenant, source, start, position, frames);
      if calm {
        assert logs[..turns] == logs;
        WithinLog(tenant, source, old(position), first, logs, limit, heartbeatDue, position, sent);
      }
    }

    // A frame without a cursor.
    method EmitQuiet(ghost log: seq<Observation>, f: Frame)
      requires Valid(log) && !HasCursor(f)
      modifies this`frames
      ensures Valid(log) && frames == old(frames) + [f]
    {
      hide Faithful;
      NothingBetween(log, tenant, source, position);
      EmitFaithful(log, tenant, source, start, position, position, frames, f);
      Emit(f);
    }

    // The for loop over a page's observations.
    method EmitObservations(ghost log: seq<Observation>, items: seq<Item>, next: nat, auth: nat -> AuthCheck) returns (open: bool)
      requires Valid(log) && position <= next <= |log| && items == ScopedLog(log, tenant, source, position, next)
      modifies this
      ensures Valid(log) && old(frames) <= frames && old(position) <= position <= next
      ensures open ==> ScopedLog(log, tenant, source, position, next) == []
      ensures Undisturbed(auth) ==> open
      ensures open ==> frames == old(frames) + FramesOf(items) && position == Reached(old(position), items)
    {
      hide Faithful, ScopedLog;
      for i := 0 to |items|
        invariant Valid(log) && old(frames) <= frames && old(position) <= position <= next
        invariant ScopedLog(log, tenant, source, position, next) == items[i..]
        invariant frames == old(frames) + FramesOf(items[..i]) && position == Reached(old(position), items[..i])
      {
        open := Revalidate(auth(1 + i), log);
        if !open {
          return;
        }
        var item := items[i];
        FirstDelivered(log, tenant, source, position, next);
        EmitFaithful(log, tenant, source, start, position, item.seqNo, frames, ObservationFrame(item.seqNo, item.obs));
        position := item.seqNo;
        Emit(ObservationFrame(position, item.obs));
        assert items[i..][1..] == items[i + 1..];
        assert FramesOf(items[..i + 1]) == FramesOf(items[..i]) + [ObservationFrame(item.seqNo, item.obs)];
      }
      assert items[..|items|] == items;
      open := true;
    }
  }

  lemma NothingBetween(log: seq<Observation>, tenant: string, source: string, position: nat)
    ensures ScopedLog(log, tenant, source, position, position) == []
  {
  }

  lemma {:induction false} FirstDelivered(log: seq<Observation>, tenant: string, source: string, from: nat, to: nat)
    requires from <= to && ScopedLog(log, tenant, source, from, to) != []
    ensures var items := ScopedLog(log, tenant, source, from, to);
      && from < items[0].seqNo <= to
      && ScopedLog(log, tenant, source, from, items[0].seqNo) == items[..1]
      && ScopedLog(log, tenant, source, items[0].seqNo, to) == items[1..]
  {
    var items := ScopedLog(log, tenant, source, from, to);
    if ScopedLog(log, tenant, source, from, to - 1) != [] {
      FirstDelivered(log, tenant, source, from, to - 1);
    } else {
      NothingBetween(log, tenant, source, to);
    }
  }

  /* ----- Resuming ----- */

  /** A client that stops anywhere and resumes from the last cursor it saw misses nothing and sees
      nothing twice: what it received up to that cursor and what the resumed stream delivers are
      together exactly the in-scope entries, however the log grew in between. */
  lemma ResumeLosesNothing(log: seq<Observation>, log': seq<Observation>, tenant: string, source: string,
                           start: nat, position: nat, frames: seq<Frame>, i: nat, position': nat, frames': seq<Frame>)
    requires log <= log' && Faithful(log, tenant, source, start, position, frames)
    requires i < |frames| && HasCursor(frames[i])
    requires Faithful(log', tenant, source, frames[i].cursor, position', frames')
    ensures Delivered(frames[..i + 1]) + Delivered(frames') == ScopedLog(log', tenant, source, start, position')
  {
    hide Delivered, ScopedLog;
    var cursor := frames[i].cursor;
    ScopedStable(log, log', tenant, source, start, cursor);
    ScopedJoin(log', tenant, source, start, cursor, position');
  }
}
