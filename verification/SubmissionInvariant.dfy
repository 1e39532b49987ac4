/** What every operation of the submission store keeps: one invariant on each row, and the
    bijection between submissions and idempotency entries. */
module SubmissionInvariant {
  import opened Prelude
  import opened SubmissionStates
  import opened SubmissionStore
  import Leases
  import EventHistory
  import RetryIdentity

  // ---------------------------------------------------------------- the invariant

  /** A payload-free row kept only to answer that the submission expired. A task ID may still
      be attached late. */
  predicate Tombstone(row: Row) {
    && row.status == Expired && row.args.None? && row.events.None? && row.result.None? && row.errorCode.None?
    && row.evidence.None? && row.inputRequests.None?
  }

  predicate DeadlinesInv(row: Row) {
    && (Terminal(row.status) <==> row.completedAt.Some?)
    && (Terminal(row.status) <==> row.payloadExpiresAt.Some?)
    && (Terminal(row.status) <==> row.tombstoneExpiresAt.Some?)
    && (Terminal(row.status) ==>
          && row.payloadExpiresAt.value == row.completedAt.value + row.limits.payloadRetentionMs
          && row.tombstoneExpiresAt.value == row.completedAt.value + row.limits.tombstoneRetentionMs
          && row.payloadExpiresAt.value <= row.tombstoneExpiresAt.value)
  }

  predicate OutcomeInv(row: Row) {
    && (row.errorCode.Some? <==> row.errorMessage.Some?)
    && (row.errorCode.Some? ==>
          ValidError(ErrorEnvelope(row.errorCode.value, row.errorMessage.value, row.errorRetryable)))
    && (row.errorRetryable ==> row.errorCode.Some?)
    && (!Terminal(row.status) ==> row.result.None? && row.errorCode.None? && row.evidence.None?)
    && (row.status == Completed <==> row.result.Some?)
    && (Terminal(row.status) && row.status != Completed && row.errorCode.None? ==> Tombstone(row))
    && (row.status == Completed ==> row.errorCode.None?)
    && (row.args.None? ==> Tombstone(row))
    && (row.result.Some? ==> 0 < |row.result.value| <= row.limits.resultBytes)
    && (row.evidence.Some? ==> |row.evidence.value| <= row.limits.resultBytes)
  }

  /** An increasing history of one submission that ends at most at `sequence`. */
  predicate Ordered(id: string, events: seq<EventHistory.Event>, sequence: int) {
    && EventHistory.StrictlyIncreasing(events)
    && forall i :: 0 <= i < |events| ==> events[i].submission == id && 1 <= events[i].sequence <= sequence
  }

  /** What is asked of a retained history that ends at a sequence. */
  predicate HistoryInv(id: string, retained: seq<EventHistory.Event>, sequence: int, lim: EventHistory.EventLimits) {
    && 0 <= sequence
    && EventHistory.Fits(retained, lim)
    && Ordered(id, retained, sequence)
  }

  predicate EventsInv(id: string, row: Row) {
    HistoryInv(id, Retained(row), row.sequence, EventBounds(row.limits))
  }

  predicate RowInv(id: string, row: Row) {
    Valid(row.status) && ValidAccepted(row.limits) && DeadlinesInv(row) && OutcomeInv(row) && EventsInv(id, row)
  }

  predicate IndexInv(rows: map<string, Row>, index: map<string, IndexEntry>) {
    && (forall id :: id in rows ==>
          rows[id].key in index && index[rows[id].key].submissionId == id
          && index[rows[id].key].argsHash == rows[id].argsHash)
    && (forall key :: key in index ==>
          index[key].submissionId in rows && rows[index[key].submissionId].key == key)
  }

  predicate RowsInv(rows: map<string, Row>) {
    forall id :: id in rows ==> RowInv(id, rows[id])
  }

  predicate DbInv(db: Db) {
    RowsInv(db.rows) && IndexInv(db.rows, db.index)
  }

  /** A terminal row that is no tombstone holds exactly one of result and error. */
  lemma TerminalRowsHoldOneOutcome(id: string, row: Row)
    requires RowInv(id, row) && Terminal(row.status)
    ensures Tombstone(row) || (row.result.Some? <==> row.errorCode.None?)
    ensures row.result.None? || row.errorCode.None?
  {
  }

  // ---------------------------------------------------------------- the operations

  datatype Op =
    | Create(sub: NewSubmission, limits: Limits, nowMs: int)
    | Transition(id: string, to: Status, detail: Detail, lease: Option<LeaseIdentity>, nowMs: int)
    | Complete(id: string, encoded: string, lease: Option<LeaseIdentity>, nowMs: int)
    | Fail(id: string, error: ErrorEnvelope, held: LeaseIdentity, nowMs: int)
    | Capture(id: string, held: LeaseIdentity, to: Status, error: ErrorEnvelope, evidence: string, nowMs: int)
    | Append(id: string, events: seq<EventHistory.Event>, nowMs: int)
    | Save(id: string, held: LeaseIdentity, note: TaskNote, inputRequests: string, nowMs: int)
    | Attach(id: string, taskId: string, nowMs: int)
    | Replace(id: string, owner: string, taskId: string, nowMs: int)
    | Respond(id: string, request: string, response: string, nowMs: int)
    | MarkSent(id: string, requests: seq<string>, nowMs: int)
    | LeaseStep(name: string, step: Leases.LeaseOp)
    | Sweep(nowMs: int)

  function Apply(db: Db, op: Op): Db {
    match op
    case Create(sub, limits, nowMs) => AfterCreate(db, sub, limits, nowMs)
    case Transition(id, to, detail, lease, nowMs) => AfterTransition(db, id, to, detail, lease, nowMs)
    case Complete(id, encoded, lease, nowMs) => AfterComplete(db, id, encoded, lease, nowMs)
    case Fail(id, error, held, nowMs) => AfterFail(db, id, error, held, nowMs)
    case Capture(id, held, to, error, evidence, nowMs) => AfterCapture(db, id, held, to, error, evidence, nowMs)
    case Append(id, events, nowMs) => AfterAppend(db, id, events, nowMs)
    case Save(id, held, note, inputRequests, nowMs) => AfterSave(db, id, held, note, inputRequests, nowMs)
    case Attach(id, taskId, nowMs) => AfterAttach(db, id, taskId, nowMs)
    case Replace(id, owner, taskId, nowMs) => AfterReplace(db, id, owner, taskId, nowMs)
    case Respond(id, request, response, nowMs) => AfterAnswer(db, id, request, response, nowMs)
    case MarkSent(id, requests, nowMs) =>
      if id == "" then db else db.(answers := MarkedAll(db.answers, id, requests, nowMs))
    case LeaseStep(name, step) => db.(leases := Put(db.leases, name, Leases.ApplyOp(Lookup(db.leases, name), step)))
    case Sweep(nowMs) => AfterGC(db, nowMs)
  }

  /** The one thing asked of an operation: a store opens only with valid limits. */
  predicate ValidOp(op: Op) {
    op.Create? ==> ValidLimits(op.limits)
  }

  const EMPTY := Db(map[], map[], map[], map[])

  function Run(db: Db, ops: seq<Op>): Db
    decreases ops
  {
    if ops == [] then db else Run(Apply(db, ops[0]), ops[1..])
  }

  predicate ValidOps(ops: seq<Op>) {
    forall i :: 0 <= i < |ops| ==> ValidOp(ops[i])
  }

  // ---------------------------------------------------------------- each write keeps its row

  lemma AcceptedRowHolds(id: string, sub: NewSubmission, hash: string, l: Limits, nowMs: int)
    requires ValidLimits(l) && sub.arguments.Some?
    ensures RowInv(id, AcceptedRow(sub, hash, l, nowMs))
  {
    AcceptedLimitsStayValid(l);
  }

  /** Rounding to milliseconds keeps the payload deadline before the tombstone deadline. */
  lemma RetentionsAreOrdered(limits: AcceptedLimits)
    requires ValidAccepted(limits)
    ensures 0 < limits.payloadRetentionMs <= limits.tombstoneRetentionMs && 0 < limits.resultBytes
    ensures 0 < limits.maxEvents
  {
    var p, t := limits.payloadRetentionMs * MILLISECOND, limits.tombstoneRetentionMs * MILLISECOND;
    assert 0 < p <= t;
  }

  lemma MovedHolds(id: string, row: Row, to: Status, detail: Detail, nowMs: int)
    requires RowInv(id, row) && Allowed(row.status, to) && ValidTransition(to, detail)
    ensures RowInv(id, Moved(row, to, detail, nowMs))
  {
    MovedWrites(row, to, detail, nowMs);
    TransitionColumnsHold(id, row, Moved(row, to, detail, nowMs), to, detail, nowMs);
  }

  lemma TransitionColumnsHold(id: string, row: Row, after: Row, to: Status, detail: Detail, nowMs: int)
    requires RowInv(id, row) && Allowed(row.status, to) && ValidTransition(to, detail)
    requires TransitionColumns(row, after, to, detail, nowMs)
    ensures RowInv(id, after)
  {
    RetentionsAreOrdered(row.limits);
    assert Retained(after) == Retained(row);
    assert DeadlinesInv(after) && OutcomeInv(after);
  }

  lemma MovedKeepsIdentity(row: Row, to: Status, detail: Detail, nowMs: int)
    ensures Moved(row, to, detail, nowMs).key == row.key && Moved(row, to, detail, nowMs).argsHash == row.argsHash
  {
    MovedWrites(row, to, detail, nowMs);
  }

  lemma FinishedHolds(id: string, row: Row, outcome: Outcome, nowMs: int)
    requires RowInv(id, row) && Allowed(row.status, OutcomeStatus(outcome))
    requires outcome.Success? ==> 0 < |outcome.encoded| <= row.limits.resultBytes
    requires outcome.Failure? ==> ValidError(outcome.error)
    ensures RowInv(id, Finished(row, outcome, nowMs))
  {
    RetentionsAreOrdered(row.limits);
    var finished := Finished(row, outcome, nowMs);
    assert Retained(finished) == Retained(row);
    assert DeadlinesInv(finished) && OutcomeInv(finished);
  }

  lemma FixedErrorsAreValid()
    ensures ValidError(RESULT_TOO_LARGE) && ValidError(EVIDENCE_TOO_LARGE)
  {
    assert "result_too_large" in ERROR_CODES;
  }

  lemma CapturedHolds(id: string, row: Row, to: Status, error: ErrorEnvelope, evidence: string, nowMs: int)
    requires RowInv(id, row) && Allowed(row.status, to) && Terminal(to) && to != Completed && ValidError(error)
    ensures RowInv(id, Captured(row, to, error, evidence, nowMs))
  {
    RetentionsAreOrdered(row.limits);
    FixedErrorsAreValid();
    var captured := Captured(row, to, error, evidence, nowMs);
    assert Retained(captured) == Retained(row);
    assert DeadlinesInv(captured) && OutcomeInv(captured);
  }

  lemma OrderedConcat(
    id: string, retained: seq<EventHistory.Event>, sequence: int, events: seq<EventHistory.Event>,
    lim: EventHistory.EventLimits)
    requires Ordered(id, retained, sequence) && events != []
    requires EventHistory.BatchError(id, events, sequence, lim).None?
    ensures Ordered(id, retained + events, EventHistory.LastSequence(events, sequence))
    ensures sequence < EventHistory.LastSequence(events, sequence)
  {
    EventHistory.AcceptedBatchIncreases(id, events, sequence, lim);
    EventHistory.AcceptedBatchIsOwn(id, events, sequence, lim);
    assert sequence < events[0].sequence;
    EventHistory.IncreasingConcat(retained, events);
  }

  lemma OrderedSuffix(id: string, events: seq<EventHistory.Event>, sequence: int, k: nat)
    requires Ordered(id, events, sequence) && k <= |events|
    ensures Ordered(id, events[k..], sequence)
  {
  }

  lemma MergedHistoryHolds(
    id: string, retained: seq<EventHistory.Event>, sequence: int, events: seq<EventHistory.Event>,
    lim: EventHistory.EventLimits)
    requires HistoryInv(id, retained, sequence, lim) && 0 < lim.maxEvents && events != []
    requires EventHistory.BatchError(id, events, sequence, lim).None?
    ensures HistoryInv(id, EventHistory.Trimmed(retained + events, lim), EventHistory.LastSequence(events, sequence), lim)
    ensures sequence < EventHistory.LastSequence(events, sequence)
  {
    OrderedConcat(id, retained, sequence, events, lim);
    var all := retained + events;
    EventHistory.TrimmedIsAFittingSuffix(all, lim);
    OrderedSuffix(id, all, EventHistory.LastSequence(events, sequence), |all| - |EventHistory.Trimmed(all, lim)|);
  }

  lemma AppendedHolds(id: string, row: Row, events: seq<EventHistory.Event>, nowMs: int)
    requires RowInv(id, row) && !Terminal(row.status) && events != [] && MergeOn(id, row, events).Ok?
    ensures var (merged, last) := MergeOn(id, row, events).value;
            RowInv(id, row.(events := Some(merged), sequence := last, updatedAt := nowMs))
  {
    RetentionsAreOrdered(row.limits);
    var lim := EventBounds(row.limits);
    assert HistoryInv(id, Retained(row), row.sequence, lim);
    MergedHistoryHolds(id, Retained(row), row.sequence, events, lim);
    var (merged, last) := MergeOn(id, row, events).value;
    var appended := row.(events := Some(merged), sequence := last, updatedAt := nowMs);
    assert HistoryInv(id, Retained(appended), last, lim);
    assert OutcomeInv(appended) && DeadlinesInv(appended);
  }

  /** A write that touches only the task columns. */
  lemma NotedHolds(id: string, row: Row, after: Row)
    requires RowInv(id, row)
    requires after == row.(note := after.note, taskId := after.taskId, inputRequests := after.inputRequests,
                           updatedAt := after.updatedAt)
    requires after.inputRequests == row.inputRequests || !Terminal(row.status)
    ensures RowInv(id, after)
  {
    assert Retained(after) == Retained(row);
    assert OutcomeInv(after) && DeadlinesInv(after);
  }

  lemma SweptHolds(id: string, row: Row, nowMs: int)
    requires RowInv(id, row)
    ensures RowInv(id, Swept(row, nowMs))
  {
    RetentionsAreOrdered(row.limits);
  }

  // ---------------------------------------------------------------- each operation keeps the tables

  lemma RowUpdateKeepsIndexInv(rows: map<string, Row>, index: map<string, IndexEntry>, id: string, row: Row)
    requires IndexInv(rows, index) && id in rows && row.key == rows[id].key && row.argsHash == rows[id].argsHash
    ensures IndexInv(rows[id := row], index)
  {
  }

  lemma RowUpdateKeepsDbInv(db: Db, id: string, row: Row)
    requires DbInv(db) && id in db.rows && RowInv(id, row)
    requires row.key == db.rows[id].key && row.argsHash == db.rows[id].argsHash
    ensures DbInv(db.(rows := db.rows[id := row]))
  {
    RowUpdateKeepsIndexInv(db.rows, db.index, id, row);
  }

  lemma NewEntryKeepsIndexInv(
    rows: map<string, Row>, index: map<string, IndexEntry>, id: string, row: Row, entry: IndexEntry)
    requires IndexInv(rows, index) && id !in rows && row.key !in index
    requires entry.submissionId == id && entry.argsHash == row.argsHash
    ensures IndexInv(rows[id := row], index[row.key := entry])
  {
  }

  lemma CreateKeepsDbInv(db: Db, sub: NewSubmission, l: Limits, nowMs: int)
    requires DbInv(db) && ValidLimits(l)
    ensures DbInv(AfterCreate(db, sub, l, nowMs))
  {
    if CreationOf(db, sub, l).Created? {
      var hash := RetryIdentity.HashInput(sub.tool, sub.requestArguments.value);
      var row := AcceptedRow(sub, hash, l, nowMs);
      AcceptedRowHolds(sub.id, sub, hash, l, nowMs);
      NewEntryKeepsIndexInv(db.rows, db.index, sub.id, row, IndexEntry(hash, sub.id, nowMs));
      assert AfterCreate(db, sub, l, nowMs).rows == db.rows[sub.id := row];
      assert AfterCreate(db, sub, l, nowMs).index == db.index[sub.key := IndexEntry(hash, sub.id, nowMs)];
    }
  }

  lemma FinishKeepsDbInv(db: Db, id: string, outcome: Outcome, lease: Option<LeaseIdentity>, nowMs: int)
    requires DbInv(db)
    requires outcome.Success? && id in db.rows ==> 0 < |outcome.encoded| <= db.rows[id].limits.resultBytes
    requires outcome.Failure? ==> ValidError(outcome.error)
    ensures DbInv(AfterFinish(db, id, outcome, lease, nowMs))
  {
    if MoveRefusal(db, id, OutcomeStatus(outcome), lease, nowMs).None? {
      FinishedHolds(id, db.rows[id], outcome, nowMs);
      RowUpdateKeepsDbInv(db, id, Finished(db.rows[id], outcome, nowMs));
    }
  }

  lemma TransitionKeepsDbInv(
    db: Db, id: string, to: Status, detail: Detail, lease: Option<LeaseIdentity>, nowMs: int)
    requires DbInv(db)
    ensures DbInv(AfterTransition(db, id, to, detail, lease, nowMs))
  {
    if TransitionRefusal(db, id, to, detail, lease, nowMs).None? {
      MovedHolds(id, db.rows[id], to, detail, nowMs);
      MovedKeepsIdentity(db.rows[id], to, detail, nowMs);
      RowUpdateKeepsDbInv(db, id, Moved(db.rows[id], to, detail, nowMs));
    }
  }

  lemma CaptureKeepsDbInv(
    db: Db, id: string, held: LeaseIdentity, to: Status, error: ErrorEnvelope, evidence: string, nowMs: int)
    requires DbInv(db)
    ensures DbInv(AfterCapture(db, id, held, to, error, evidence, nowMs))
  {
    if CaptureRefusal(db, id, held, to, error, nowMs).None? && !Terminal(db.rows[id].status) {
      CapturedHolds(id, db.rows[id], to, error, evidence, nowMs);
      RowUpdateKeepsDbInv(db, id, Captured(db.rows[id], to, error, evidence, nowMs));
    }
  }

  lemma CompleteKeepsDbInv(db: Db, id: string, encoded: string, lease: Option<LeaseIdentity>, nowMs: int)
    requires DbInv(db)
    ensures DbInv(AfterComplete(db, id, encoded, lease, nowMs))
  {
    FixedErrorsAreValid();
    if encoded != "" && Loaded(db, id).Ok? {
      FinishKeepsDbInv(db, id, CompletionOutcome(db.rows[id].limits, encoded), lease, nowMs);
    }
  }

  lemma AppendKeepsDbInv(db: Db, id: string, events: seq<EventHistory.Event>, nowMs: int)
    requires DbInv(db)
    ensures DbInv(AfterAppend(db, id, events, nowMs))
  {
    if AppendRefusal(db, id, events).None? && events != [] {
      AppendedHolds(id, db.rows[id], events, nowMs);
      RowUpdateKeepsDbInv(db, id, AfterAppend(db, id, events, nowMs).rows[id]);
    }
  }

  lemma NotedRowKeepsDbInv(db: Db, id: string, after: Row)
    requires DbInv(db) && id in db.rows
    requires after == db.rows[id].(note := after.note, taskId := after.taskId, inputRequests := after.inputRequests,
                                   updatedAt := after.updatedAt)
    requires after.inputRequests == db.rows[id].inputRequests || !Terminal(db.rows[id].status)
    ensures DbInv(db.(rows := db.rows[id := after]))
  {
    NotedHolds(id, db.rows[id], after);
    RowUpdateKeepsDbInv(db, id, after);
  }

  lemma SaveKeepsDbInv(db: Db, id: string, lease: LeaseIdentity, note: TaskNote, requests: string, nowMs: int)
    requires DbInv(db)
    ensures DbInv(AfterSave(db, id, lease, note, requests, nowMs))
  {
    if SaveRefusal(db, id, lease, note, nowMs).None? {
      NotedRowKeepsDbInv(db, id, AfterSave(db, id, lease, note, requests, nowMs).rows[id]);
    }
  }

  lemma TaskKeepsDbInv(db: Db, id: string, taskId: string, nowMs: int)
    requires DbInv(db) && id in db.rows
    ensures DbInv(db.(rows := db.rows[id := db.rows[id].(taskId := Some(taskId), updatedAt := nowMs)]))
  {
    NotedRowKeepsDbInv(db, id, db.rows[id].(taskId := Some(taskId), updatedAt := nowMs));
  }

  lemma AttachKeepsDbInv(db: Db, id: string, taskId: string, nowMs: int)
    requires DbInv(db)
    ensures DbInv(AfterAttach(db, id, taskId, nowMs))
  {
    if id in db.rows {
      TaskKeepsDbInv(db, id, taskId, nowMs);
    }
  }

  lemma ReplaceKeepsDbInv(db: Db, id: string, owner: string, taskId: string, nowMs: int)
    requires DbInv(db)
    ensures DbInv(AfterReplace(db, id, owner, taskId, nowMs))
  {
    if id in db.rows {
      TaskKeepsDbInv(db, id, taskId, nowMs);
    }
  }

  /** A sweep leaves of each row what Swept says, or nothing. */
  lemma SweepOfOneRow(db: Db, id: string, nowMs: int)
    ensures var after := AfterGC(db, nowMs);
      && (id in after.rows <==> id in db.rows && !TombstoneLapsed(db.rows[id], nowMs))
      && (id in after.rows ==> after.rows[id] == Swept(db.rows[id], nowMs))
  {
  }

  lemma SweepKeepsDbInv(db: Db, nowMs: int)
    requires DbInv(db)
    ensures DbInv(AfterGC(db, nowMs))
  {
    var after := AfterGC(db, nowMs);
    forall id | id in after.rows
      ensures RowInv(id, after.rows[id])
    {
      SweepOfOneRow(db, id, nowMs);
      SweptHolds(id, db.rows[id], nowMs);
    }
    SweepKeepsIndexInv(db.rows, db.index, AllSwept(db.rows, nowMs), LapsedIds(AllSwept(db.rows, nowMs), nowMs));
  }

  lemma SweepKeepsIndexInv(
    rows: map<string, Row>, index: map<string, IndexEntry>, swept: map<string, Row>, gone: set<string>)
    requires IndexInv(rows, index) && gone <= rows.Keys == swept.Keys
    requires forall id :: id in rows ==> swept[id].key == rows[id].key && swept[id].argsHash == rows[id].argsHash
    ensures IndexInv(swept - gone, index - (set id | id in gone :: swept[id].key))
  {
    var keys := set id | id in gone :: swept[id].key;
    forall id | id in swept && id !in gone
      ensures swept[id].key !in keys
    {
      assert index[rows[id].key].submissionId == id;
    }
  }

  /** Every operation keeps the invariant of every row and the bijection between submissions
      and idempotency entries. */
  lemma StepKeepsDbInv(db: Db, op: Op)
    requires DbInv(db) && ValidOp(op)
    ensures DbInv(Apply(db, op))
  {
    if op.Create? {
      CreateKeepsDbInv(db, op.sub, op.limits, op.nowMs);
    } else if op.Sweep? {
      SweepKeepsDbInv(db, op.nowMs);
    } else if op.Transition? {
      TransitionKeepsDbInv(db, op.id, op.to, op.detail, op.lease, op.nowMs);
    } else if op.Capture? {
      CaptureKeepsDbInv(db, op.id, op.held, op.to, op.error, op.evidence, op.nowMs);
    } else if op.Complete? {
      CompleteKeepsDbInv(db, op.id, op.encoded, op.lease, op.nowMs);
    } else if op.Fail? {
      if ValidError(op.error) {
        FinishKeepsDbInv(db, op.id, Failure(op.error), Some(op.held), op.nowMs);
      }
    } else if op.Append? {
      AppendKeepsDbInv(db, op.id, op.events, op.nowMs);
    } else if op.Save? {
      SaveKeepsDbInv(db, op.id, op.held, op.note, op.inputRequests, op.nowMs);
    } else if op.Attach? {
      AttachKeepsDbInv(db, op.id, op.taskId, op.nowMs);
    } else if op.Replace? {
      ReplaceKeepsDbInv(db, op.id, op.owner, op.taskId, op.nowMs);
    }
  }

  lemma {:induction false} RunKeepsDbInv(db: Db, ops: seq<Op>)
    requires DbInv(db) && ValidOps(ops)
    ensures DbInv(Run(db, ops))
    decreases ops
  {
    if ops == [] {
    } else {
      StepKeepsDbInv(db, ops[0]);
      RunKeepsDbInv(Apply(db, ops[0]), ops[1..]);
    }
  }

  /** In every reachable state, hence: all rows are readable, and submissions and keys are in
      bijection. */
  lemma ReachableStatesAreSound(ops: seq<Op>)
    requires ValidOps(ops)
    ensures var db := Run(EMPTY, ops);
      && DbInv(db)
      && (forall id :: id in db.rows ==> Loaded(db, id).Ok?)
      && (forall a, b :: a in db.rows && b in db.rows && db.rows[a].key == db.rows[b].key ==> a == b)
      && |db.rows| == |db.index|
  {
    RunKeepsDbInv(EMPTY, ops);
    var db := Run(EMPTY, ops);
    SameSize(db.rows, db.index);
  }

  lemma {:induction false} SameSize(rows: map<string, Row>, index: map<string, IndexEntry>)
    requires IndexInv(rows, index)
    ensures |rows| == |index|
    decreases |rows|
  {
    if id :| id in rows {
      var key := rows[id].key;
      var rows', index' := rows - {id}, index - {key};
      assert |rows'.Keys| == |rows.Keys| - 1 by {
        assert rows.Keys == rows'.Keys + {id};
      }
      assert |index'.Keys| == |index.Keys| - 1 by {
        assert index.Keys == index'.Keys + {key};
      }
      SameSize(rows', index');
    } else {
      assert rows.Keys == {};
      assert index.Keys == {};
    }
  }
}
