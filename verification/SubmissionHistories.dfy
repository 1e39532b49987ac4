/** Whole runs of the submission store: status histories, the single terminal winner,
    retention, and retries of one idempotency key. */
module SubmissionHistories {
  import opened Prelude
  import opened SubmissionStates
  import opened SubmissionStore
  import opened SubmissionInvariant
  import RetryIdentity
  import JsonDepth

  // ---------------------------------------------------------------- one operation, one row

  /** Everything a client can learn about a finished row, and everything retention acts on:
      all columns but the task ID and the time of the last write. */
  predicate SameButTask(row: Row, after: Row) {
    after == row.(taskId := after.taskId, updatedAt := after.updatedAt)
  }

  predicate SameIdentity(row: Row, after: Row) {
    && after.key == row.key && after.tool == row.tool && after.argsHash == row.argsHash && after.limits == row.limits
    && after.createdAt == row.createdAt
  }

  /** What a write may do to a row. */
  predicate LegalWrite(row: Row, after: Row) {
    SameIdentity(row, after) && after.args == row.args &&
    if Terminal(row.status) then SameButTask(row, after)
    else after.status == row.status || Allowed(row.status, after.status)
  }

  /** What one operation may do to a row: a sweep only acts on a finished one past its
      deadlines, and nothing but a creation brings one into being. */
  predicate LegalChange(before: Option<Row>, op: Op, after: Option<Row>) {
    match before
    case None => after.None? || (op.Create? && after.value.status == Accepted)
    case Some(row) =>
      if !op.Sweep? then after.Some? && LegalWrite(row, after.value)
      else
        || after == before
        || (Terminal(row.status) && PayloadLapsed(row, op.nowMs) &&
            if after.None? then TombstoneLapsed(row, op.nowMs) else after.value == Emptied(row, op.nowMs))
  }

  lemma TransitionColumnsAreLegal(row: Row, after: Row, to: Status, detail: Detail, nowMs: int)
    requires Allowed(row.status, to) && TransitionColumns(row, after, to, detail, nowMs)
    ensures LegalWrite(row, after)
  {
  }

  lemma TransitionIsLegal(db: Db, id: string, to: Status, detail: Detail, lease: Option<LeaseIdentity>, nowMs: int)
    requires id in db.rows
    ensures LegalWrite(db.rows[id], AfterTransition(db, id, to, detail, lease, nowMs).rows[id])
  {
    if TransitionRefusal(db, id, to, detail, lease, nowMs).None? {
      MovedWrites(db.rows[id], to, detail, nowMs);
      TransitionColumnsAreLegal(db.rows[id], Moved(db.rows[id], to, detail, nowMs), to, detail, nowMs);
    }
  }

  lemma FinishIsLegal(db: Db, id: string, outcome: Outcome, lease: Option<LeaseIdentity>, nowMs: int)
    requires id in db.rows
    ensures LegalWrite(db.rows[id], AfterFinish(db, id, outcome, lease, nowMs).rows[id])
  {
    if MoveRefusal(db, id, OutcomeStatus(outcome), lease, nowMs).None? {
      var row, finished := db.rows[id], Finished(db.rows[id], outcome, nowMs);
      assert SameIdentity(row, finished) && finished.status == OutcomeStatus(outcome);
    }
  }

  lemma CaptureIsLegal(
    db: Db, id: string, held: LeaseIdentity, to: Status, error: ErrorEnvelope, evidence: string, nowMs: int)
    requires id in db.rows
    ensures LegalWrite(db.rows[id], AfterCapture(db, id, held, to, error, evidence, nowMs).rows[id])
  {
    if CaptureRefusal(db, id, held, to, error, nowMs).None? && !Terminal(db.rows[id].status) {
      var row, captured := db.rows[id], Captured(db.rows[id], to, error, evidence, nowMs);
      assert SameIdentity(row, captured) && Terminal(captured.status);
    }
  }

  lemma NotesAreLegal(db: Db, op: Op)
    requires (op.Append? || op.Save? || op.Attach? || op.Replace?) && op.id in db.rows
    ensures LegalWrite(db.rows[op.id], Apply(db, op).rows[op.id])
  {
    var row, after := db.rows[op.id], Apply(db, op).rows[op.id];
    assert SameIdentity(row, after) && after.status == row.status;
    assert Terminal(row.status) ==> SameButTask(row, after);
  }

  lemma MovesAreLegal(db: Db, op: Op)
    requires (op.Transition? || op.Complete? || op.Fail? || op.Capture?) && op.id in db.rows
    ensures op.id in Apply(db, op).rows && LegalWrite(db.rows[op.id], Apply(db, op).rows[op.id])
  {
    var row := db.rows[op.id];
    assert LegalWrite(row, row);
    match op {
      case Transition(id, to, detail, lease, nowMs) => TransitionIsLegal(db, id, to, detail, lease, nowMs);
      case Complete(id, encoded, lease, nowMs) => FinishIsLegal(db, id, CompletionOutcome(row.limits, encoded), lease, nowMs);
      case Fail(id, error, held, nowMs) => FinishIsLegal(db, id, Failure(error), Some(held), nowMs);
      case Capture(id, held, to, error, evidence, nowMs) => CaptureIsLegal(db, id, held, to, error, evidence, nowMs);
    }
  }

  /** An operation writes at most the row it names. */
  predicate Names(op: Op, id: string) {
    match op
    case Transition(x, _, _, _, _) => x == id
    case Complete(x, _, _, _) => x == id
    case Fail(x, _, _, _) => x == id
    case Capture(x, _, _, _, _, _) => x == id
    case Append(x, _, _) => x == id
    case Save(x, _, _, _, _) => x == id
    case Attach(x, _, _) => x == id
    case Replace(x, _, _, _) => x == id
    case _ => false
  }

  lemma OthersAreUntouched(db: Db, op: Op, id: string)
    requires id in db.rows && !op.Sweep? && !Names(op, id)
    ensures id in Apply(db, op).rows && Apply(db, op).rows[id] == db.rows[id]
  {
  }

  /** An operation that is no sweep keeps every row, and writes one legally. */
  lemma WritesAreLegal(db: Db, op: Op, id: string)
    requires id in db.rows && !op.Sweep?
    ensures id in Apply(db, op).rows && LegalWrite(db.rows[id], Apply(db, op).rows[id])
  {
    if !Names(op, id) {
      OthersAreUntouched(db, op, id);
    } else if op.Transition? || op.Complete? || op.Fail? || op.Capture? {
      MovesAreLegal(db, op);
    } else {
      NotesAreLegal(db, op);
    }
  }

  lemma SweepsAreLegal(db: Db, nowMs: int, id: string)
    requires id in db.rows ==> DeadlinesInv(db.rows[id])
    ensures LegalChange(Lookup(db.rows, id), Sweep(nowMs), Lookup(AfterGC(db, nowMs).rows, id))
  {
    SweepOfOneRow(db, id, nowMs);
  }

  /** Only a creation brings a row into being. */
  lemma NothingAppears(db: Db, op: Op, id: string)
    requires id !in db.rows && !op.Sweep?
    ensures id in Apply(db, op).rows ==> op.Create? && Apply(db, op).rows[id].status == Accepted
  {
  }

  lemma ChangesAreLegal(db: Db, op: Op, id: string)
    requires id in db.rows ==> DeadlinesInv(db.rows[id])
    ensures LegalChange(Lookup(db.rows, id), op, Lookup(Apply(db, op).rows, id))
  {
    if op.Sweep? {
      SweepsAreLegal(db, op.nowMs, id);
    } else if id in db.rows {
      WritesAreLegal(db, op, id);
    } else {
      NothingAppears(db, op, id);
    }
  }

  // ---------------------------------------------------------------- the trail of one row

  /** The row of one submission before the first operation and after each. */
  function Trail(db: Db, ops: seq<Op>, id: string): (trail: seq<Option<Row>>)
    ensures |trail| == |ops| + 1 && trail[0] == Lookup(db.rows, id)
    decreases ops
  {
    [Lookup(db.rows, id)] + if ops == [] then [] else Trail(Apply(db, ops[0]), ops[1..], id)
  }

  predicate LegalTrail(trail: seq<Option<Row>>, ops: seq<Op>) {
    |trail| == |ops| + 1 && forall i :: 0 <= i < |ops| ==> LegalChange(trail[i], ops[i], trail[i + 1])
  }

  lemma StepIsLegal(db: Db, op: Op, id: string)
    requires DbInv(db) && ValidOp(op)
    ensures DbInv(Apply(db, op)) && LegalChange(Lookup(db.rows, id), op, Lookup(Apply(db, op).rows, id))
  {
    StepKeepsDbInv(db, op);
    assert id in db.rows ==> RowInv(id, db.rows[id]);
    ChangesAreLegal(db, op, id);
  }

  lemma {:induction false} TrailEndsInTheRun(db: Db, ops: seq<Op>, id: string)
    ensures Trail(db, ops, id)[|ops|] == Lookup(Run(db, ops).rows, id)
    decreases ops
  {
    if ops == [] {
    } else {
      TrailEndsInTheRun(Apply(db, ops[0]), ops[1..], id);
    }
  }

  lemma TrailsAreLegal(db: Db, ops: seq<Op>, id: string)
    requires DbInv(db) && ValidOps(ops)
    ensures LegalTrail(Trail(db, ops, id), ops)
    ensures Trail(db, ops, id)[|ops|] == Lookup(Run(db, ops).rows, id)
  {
    EveryChangeIsLegal(db, ops, id);
    TrailEndsInTheRun(db, ops, id);
  }

  lemma {:induction false} EveryChangeIsLegal(db: Db, ops: seq<Op>, id: string)
    requires DbInv(db) && ValidOps(ops)
    ensures LegalTrail(Trail(db, ops, id), ops)
    decreases ops
  {
    if ops == [] {
    } else {
      var next := Apply(db, ops[0]);
      StepIsLegal(db, ops[0], id);
      EveryChangeIsLegal(next, ops[1..], id);
      assert Trail(db, ops, id) == [Lookup(db.rows, id)] + Trail(next, ops[1..], id);
      MoreTrail(Lookup(db.rows, id), Trail(next, ops[1..], id), ops);
    }
  }

  lemma MoreTrail(first: Option<Row>, rest: seq<Option<Row>>, ops: seq<Op>)
    requires ops != [] && LegalTrail(rest, ops[1..]) && LegalChange(first, ops[0], rest[0])
    ensures LegalTrail([first] + rest, ops)
  {
    forall i | 0 <= i < |ops|
      ensures LegalChange(([first] + rest)[i], ops[i], ([first] + rest)[i + 1])
    {
      assert i > 0 ==> ops[i] == ops[1..][i - 1];
    }
  }

  // ---------------------------------------------------------------- status histories

  /** The statuses of a trail without repetitions, up to the deletion of the row. */
  function Statuses(trail: seq<Option<Row>>): seq<Status>
    requires trail != []
  {
    var last := |trail| - 1;
    if trail[0].None? then []
    else if last == 0 then [trail[0].value.status]
    else
      var rest := Statuses(trail[1..]);
      if rest != [] && rest[0] == trail[0].value.status then rest else [trail[0].value.status] + rest
  }

  /** Allowed moves, and last at most one expiry of a finished submission. */
  predicate LegalHistory(path: seq<Status>) {
    forall i :: 0 <= i < |path| - 1 ==>
      Allowed(path[i], path[i + 1]) || (i == |path| - 2 && Terminal(path[i]) && path[i + 1] == Expired)
  }

  lemma {:induction false} ExpiredStaysExpired(trail: seq<Option<Row>>, ops: seq<Op>)
    requires LegalTrail(trail, ops) && trail[0].Some? && trail[0].value.status == Expired
    ensures Statuses(trail) == [Expired]
    decreases ops
  {
    if ops == [] || trail[1].None? {
    } else {
      assert LegalChange(trail[0], ops[0], trail[1]);
      assert LegalTrail(trail[1..], ops[1..]);
      ExpiredStaysExpired(trail[1..], ops[1..]);
    }
  }

  lemma {:induction false} TrailStatusesAreLegal(trail: seq<Option<Row>>, ops: seq<Op>)
    requires LegalTrail(trail, ops) && trail[0].Some?
    ensures Statuses(trail) != [] && Statuses(trail)[0] == trail[0].value.status
    ensures LegalHistory(Statuses(trail))
    decreases ops
  {
    if ops == [] || trail[1].None? {
    } else {
      var rest := Statuses(trail[1..]);
      assert LegalTrail(trail[1..], ops[1..]);
      TrailStatusesAreLegal(trail[1..], ops[1..]);
      assert LegalChange(trail[0], ops[0], trail[1]);
      var here, there := trail[0].value.status, trail[1].value.status;
      if here != there {
        if Terminal(here) {
          ExpiredStaysExpired(trail[1..], ops[1..]);
        }
        OneMoreMove(here, rest);
      }
    }
  }

  lemma OneMoreMove(here: Status, path: seq<Status>)
    requires path != [] && LegalHistory(path)
    requires Allowed(here, path[0]) || (Terminal(here) && path == [Expired])
    ensures LegalHistory([here] + path)
  {
    assert forall i :: 0 < i < |[here] + path| ==> ([here] + path)[i] == path[i - 1];
  }

  /** Under any series of operations the statuses of a row are a path of allowed moves,
      followed at most by the expiry of the finished row. */
  lemma StatusHistoriesAreLegal(db: Db, ops: seq<Op>, id: string)
    requires DbInv(db) && ValidOps(ops) && id in db.rows
    ensures var path := Statuses(Trail(db, ops, id));
            path != [] && path[0] == db.rows[id].status && LegalHistory(path)
  {
    TrailsAreLegal(db, ops, id);
    TrailStatusesAreLegal(Trail(db, ops, id), ops);
  }

  // ---------------------------------------------------------------- one winner

  /** How many operations end the submission before its row is deleted. */
  function TerminalWrites(trail: seq<Option<Row>>): nat {
    if |trail| < 2 || trail[0].None? || trail[1].None? then 0
    else
      (if !Terminal(trail[0].value.status) && Terminal(trail[1].value.status) then 1 else 0)
      + TerminalWrites(trail[1..])
  }

  lemma {:induction false} TerminalWritesOf(trail: seq<Option<Row>>, ops: seq<Op>)
    requires LegalTrail(trail, ops) && trail[0].Some?
    ensures TerminalWrites(trail) <= if Terminal(trail[0].value.status) then 0 else 1
    decreases ops
  {
    if ops == [] || trail[1].None? {
    } else {
      assert LegalChange(trail[0], ops[0], trail[1]);
      assert LegalTrail(trail[1..], ops[1..]);
      TerminalWritesOf(trail[1..], ops[1..]);
    }
  }

  /** Of all the writers that race to end one submission, leased or not, at most one does. */
  lemma AtMostOneTerminalWrite(db: Db, ops: seq<Op>, id: string)
    requires DbInv(db) && ValidOps(ops) && id in db.rows
    ensures TerminalWrites(Trail(db, ops, id)) <= if Terminal(db.rows[id].status) then 0 else 1
  {
    TrailsAreLegal(db, ops, id);
    TerminalWritesOf(Trail(db, ops, id), ops);
  }

  predicate NoSweepFrom(ops: seq<Op>, deadline: int) {
    forall i :: 0 <= i < |ops| ==> ops[i].Sweep? ==> ops[i].nowMs < deadline
  }

  lemma {:induction false} FinishedRowsStand(trail: seq<Option<Row>>, ops: seq<Op>)
    requires LegalTrail(trail, ops) && trail[0].Some? && Terminal(trail[0].value.status)
    requires trail[0].value.payloadExpiresAt.Some? && NoSweepFrom(ops, trail[0].value.payloadExpiresAt.value)
    ensures trail[|ops|].Some? && SameButTask(trail[0].value, trail[|ops|].value)
    decreases ops
  {
    if ops == [] {
    } else {
      assert LegalChange(trail[0], ops[0], trail[1]);
      assert LegalTrail(trail[1..], ops[1..]);
      assert trail[1].Some? && SameButTask(trail[0].value, trail[1].value);
      FinishedRowsStand(trail[1..], ops[1..]);
    }
  }

  /** The winner's status, result, error, evidence, events and deadlines stay as it wrote
      them, whoever else writes, until a sweep at or after the payload deadline. */
  lemma TheWinnerStands(db: Db, ops: seq<Op>, id: string)
    requires DbInv(db) && ValidOps(ops) && id in db.rows && Terminal(db.rows[id].status)
    requires db.rows[id].payloadExpiresAt.Some? && NoSweepFrom(ops, db.rows[id].payloadExpiresAt.value)
    ensures id in Run(db, ops).rows && SameButTask(db.rows[id], Run(db, ops).rows[id])
  {
    TrailsAreLegal(db, ops, id);
    FinishedRowsStand(Trail(db, ops, id), ops);
  }

  // ---------------------------------------------------------------- retention

  lemma SweepKeepsKeysOfKeptRows(db: Db, nowMs: int, id: string)
    requires IndexInv(db.rows, db.index) && id in db.rows
    ensures id in AfterGC(db, nowMs).rows <==> db.rows[id].key in AfterGC(db, nowMs).index
  {
    var swept := AllSwept(db.rows, nowMs);
    var gone := LapsedIds(swept, nowMs);
    assert db.index[db.rows[id].key].submissionId == id;
    if id in gone {
      assert swept[id].key == db.rows[id].key;
    } else {
      forall x | x in gone
        ensures swept[x].key != db.rows[id].key
      {
        assert db.index[db.rows[x].key].submissionId == x;
      }
    }
  }

  lemma SweepKeepsAnswersOfKeptRows(db: Db, nowMs: int, id: string)
    requires id in db.rows
    ensures forall request ::
      (id, request) in AfterGC(db, nowMs).answers <==> (id, request) in db.answers && id in AfterGC(db, nowMs).rows
  {
  }

  /** What a sweep leaves of one row. */
  predicate SweptExactly(row: Row, nowMs: int, after: Option<Row>)
    requires DeadlinesInv(row)
  {
    if !Terminal(row.status) || nowMs < row.payloadExpiresAt.value then after == Some(row)
    else if nowMs < row.tombstoneExpiresAt.value then
      after.Some? && Tombstone(after.value) && !HoldsPayload(after.value)
    else after.None?
  }

  /** One sweep drops exactly what is past its deadline. A pending row is never touched; a
      row before its payload deadline is left as it is; a row past it, and not yet past the
      tombstone deadline, ends payload-free and expired; a row past the tombstone deadline is
      gone with its key and its recorded input responses, and nothing else is. */
  lemma SweepIsExact(db: Db, nowMs: int, id: string)
    requires DbInv(db) && id in db.rows
    ensures RowInv(id, db.rows[id])
    ensures var after := AfterGC(db, nowMs);
      && SweptExactly(db.rows[id], nowMs, Lookup(after.rows, id))
      && (id in after.rows <==> db.rows[id].key in after.index)
      && (forall request :: (id, request) in after.answers <==> (id, request) in db.answers && id in after.rows)
  {
    assert RowInv(id, db.rows[id]);
    SweepOfOneRow(db, id, nowMs);
    RetentionsAreOrdered(db.rows[id].limits);
    SweepKeepsKeysOfKeptRows(db, nowMs, id);
    SweepKeepsAnswersOfKeptRows(db, nowMs, id);
  }

  // ---------------------------------------------------------------- retries of one key

  /** The row is there before every operation of the series and after it. */
  predicate Kept(db: Db, ops: seq<Op>, id: string) {
    forall i :: 0 <= i <= |ops| ==> Trail(db, ops, id)[i].Some?
  }

  lemma {:induction false} IdentityStays(trail: seq<Option<Row>>, ops: seq<Op>)
    requires LegalTrail(trail, ops) && forall i :: 0 <= i <= |ops| ==> trail[i].Some?
    ensures SameIdentity(trail[0].value, trail[|ops|].value)
    decreases ops
  {
    if ops == [] {
    } else {
      assert LegalChange(trail[0], ops[0], trail[1]);
      assert LegalTrail(trail[1..], ops[1..]);
      IdentityStays(trail[1..], ops[1..]);
    }
  }

  predicate SweepAt(ops: seq<Op>, deadline: int) {
    exists i :: 0 <= i < |ops| && ops[i].Sweep? && deadline <= ops[i].nowMs
  }

  /** The arguments as accepted, or none once a sweep at or past the payload deadline ran. */
  predicate SameArguments(row: Row, after: Row, ops: seq<Op>) {
    || after.args == row.args
    || (after.args.None? && Tombstone(after) && after.payloadExpiresAt.Some? && SweepAt(ops, after.payloadExpiresAt.value))
  }

  lemma SweptArguments(row: Row, after: Row, ops: seq<Op>)
    requires ops != [] && ops[0].Sweep? && PayloadLapsed(row, ops[0].nowMs) && after == Emptied(row, ops[0].nowMs)
    ensures after.payloadExpiresAt.Some? && SweepAt(ops, after.payloadExpiresAt.value) && Tombstone(after)
  {
    assert ops[0].Sweep? && after.payloadExpiresAt.value <= ops[0].nowMs;
  }

  lemma SweepLater(ops: seq<Op>, deadline: int)
    requires ops != [] && SweepAt(ops[1..], deadline)
    ensures SweepAt(ops, deadline)
  {
    var i :| 0 <= i < |ops[1..]| && ops[1..][i].Sweep? && deadline <= ops[1..][i].nowMs;
    assert ops[i + 1] == ops[1..][i];
  }

  /** A tombstone stays one, with its deadlines. */
  lemma {:induction false} TombstonesStay(trail: seq<Option<Row>>, ops: seq<Op>)
    requires LegalTrail(trail, ops) && forall i :: 0 <= i <= |ops| ==> trail[i].Some?
    requires Tombstone(trail[0].value)
    ensures Tombstone(trail[|ops|].value) && trail[|ops|].value.payloadExpiresAt == trail[0].value.payloadExpiresAt
    decreases ops
  {
    if ops == [] {
    } else {
      assert LegalChange(trail[0], ops[0], trail[1]);
      assert LegalTrail(trail[1..], ops[1..]);
      TombstonesStay(trail[1..], ops[1..]);
    }
  }

  lemma {:induction false} ArgumentsStay(trail: seq<Option<Row>>, ops: seq<Op>)
    requires LegalTrail(trail, ops) && forall i :: 0 <= i <= |ops| ==> trail[i].Some?
    ensures SameArguments(trail[0].value, trail[|ops|].value, ops)
    decreases ops
  {
    if ops == [] {
    } else {
      assert LegalChange(trail[0], ops[0], trail[1]);
      assert LegalTrail(trail[1..], ops[1..]);
      ArgumentsStay(trail[1..], ops[1..]);
      var last := trail[|ops|].value;
      assert last == trail[1..][|ops[1..]|].value;
      if trail[1].value.args != trail[0].value.args {
        SweptArguments(trail[0].value, trail[1].value, ops);
        TombstonesStay(trail[1..], ops[1..]);
      } else if last.args != trail[0].value.args {
        SweepLater(ops, last.payloadExpiresAt.value);
      }
    }
  }

  /** What was accepted is what is worked on: after any run of the store, and as long as the row
      is kept, it carries the tool, the key, the limits and the arguments it was created with,
      the arguments until a sweep at or past the payload deadline. */
  lemma AcceptedRequestStays(db: Db, sub: NewSubmission, l: Limits, nowMs: int, ops: seq<Op>)
    requires DbInv(db) && ValidLimits(l) && ValidOps(ops) && CreationOf(db, sub, l).Created?
    requires Kept(AfterCreate(db, sub, l, nowMs), ops, sub.id)
    ensures var later := Run(AfterCreate(db, sub, l, nowMs), ops);
      && sub.id in later.rows
      && var row := later.rows[sub.id];
      && row.key == sub.key && row.tool == sub.tool && row.limits == AcceptedFrom(l) && row.createdAt == nowMs
      && (row.args == sub.arguments
          || (row.args.None? && Tombstone(row) && row.payloadExpiresAt.Some? && SweepAt(ops, row.payloadExpiresAt.value)))
  {
    var created := AfterCreate(db, sub, l, nowMs);
    CreateKeepsDbInv(db, sub, l, nowMs);
    TrailsAreLegal(created, ops, sub.id);
    IdentityStays(Trail(created, ops, sub.id), ops);
    ArgumentsStay(Trail(created, ops, sub.id), ops);
  }

  // ---------------------------------------------------------------- input responses

  lemma KeptLater(db: Db, ops: seq<Op>, id: string)
    requires Kept(db, ops, id)
    ensures id in db.rows
    ensures ops != [] ==> Kept(Apply(db, ops[0]), ops[1..], id)
  {
    assert Trail(db, ops, id)[0].Some?;
    if ops != [] {
      var rest := Trail(Apply(db, ops[0]), ops[1..], id);
      forall i | 0 <= i <= |ops[1..]|
        ensures rest[i].Some?
      {
        assert Trail(db, ops, id)[i + 1] == rest[i];
      }
    }
  }

  /** The response is the one recorded first, and a mark of its delivery is not moved. */
  predicate SameAnswer(answer: Answer, after: Answer) {
    && after.response == answer.response && after.answeredAt == answer.answeredAt
    && (answer.sentAt.Some? ==> after.sentAt == answer.sentAt)
  }

  lemma {:induction false} MarkingKeepsAnswers(
    answers: map<(string, string), Answer>, id: string, requests: seq<string>, nowMs: int, k: (string, string))
    requires k in answers
    ensures k in MarkedAll(answers, id, requests, nowMs)
    ensures SameAnswer(answers[k], MarkedAll(answers, id, requests, nowMs)[k])
    decreases requests
  {
    if requests == [] || requests[0] == "" {
    } else {
      MarkingKeepsAnswers(Marked(answers, id, requests[0], nowMs), id, requests[1..], nowMs, k);
    }
  }

  lemma OperationsKeepAnswers(db: Db, op: Op, k: (string, string))
    requires k in db.answers && k.0 in db.rows && k.0 in Apply(db, op).rows
    ensures k in Apply(db, op).answers && SameAnswer(db.answers[k], Apply(db, op).answers[k])
  {
    if op.Sweep? {
      SweepKeepsAnswersOfKeptRows(db, op.nowMs, k.0);
      assert k == (k.0, k.1);
    } else if op.MarkSent? {
      if op.id != "" {
        MarkingKeepsAnswers(db.answers, op.id, op.requests, op.nowMs, k);
      }
    }
  }

  /** While a submission is kept, the first response recorded for an input request stays, in
      any run, and so does the mark that it was sent. */
  lemma {:induction false} FirstAnswerStays(db: Db, ops: seq<Op>, k: (string, string))
    requires Kept(db, ops, k.0) && k in db.answers
    ensures k in Run(db, ops).answers && SameAnswer(db.answers[k], Run(db, ops).answers[k])
    decreases ops
  {
    if ops == [] {
    } else {
      KeptLater(db, ops, k.0);
      KeptLater(Apply(db, ops[0]), ops[1..], k.0);
      OperationsKeepAnswers(db, ops[0], k);
      FirstAnswerStays(Apply(db, ops[0]), ops[1..], k);
    }
  }

  function Identity(r: RetryIdentity.Request, thread: Option<string>): Option<string> {
    if r.arguments.Canonical? then Some(RetryIdentity.IdentityText(r.arguments.value, thread)) else None
  }

  /** The two shapes a retry looks for. */
  function Candidates(r: RetryIdentity.Request): seq<Option<string>> {
    [Identity(r, Some(r.thread)), Identity(r, None)]
  }

  /** What Submit hands to the store; `maps` says whether the operation can map the thread ID,
      `upstream` is the bound argument document. */
  function SubmissionOf(id: string, key: string, r: RetryIdentity.Request, maps: bool, upstream: Option<string>): NewSubmission {
    NewSubmission(id, key, r.tool, upstream, Identity(r, if maps then Some(r.thread) else None), Candidates(r))
  }

  lemma CandidatesAreTheIdentities(r: RetryIdentity.Request)
    ensures RaceHashes(r.tool, Candidates(r)) == RetryIdentity.CandidateHashes(r)
  {
    var threaded, base := Identity(r, Some(r.thread)), Identity(r, None);
    assert Candidates(r)[0] == threaded && Candidates(r)[1] == base;
    forall c | c in Candidates(r)
      ensures c == threaded || c == base
    {
    }
  }

  /** A key that was taken by a creation stays bound to it while the row is kept. */
  lemma KeyStaysTaken(db: Db, sub: NewSubmission, limits: Limits, nowMs: int, ops: seq<Op>)
    requires DbInv(db) && ValidLimits(limits) && ValidOps(ops) && CreationOf(db, sub, limits).Created?
    requires Kept(AfterCreate(db, sub, limits, nowMs), ops, sub.id)
    ensures var later := Run(AfterCreate(db, sub, limits, nowMs), ops);
      && sub.key in later.index && later.index[sub.key].submissionId == sub.id
      && later.index[sub.key].argsHash == RetryIdentity.HashInput(sub.tool, sub.requestArguments.value)
      && Loaded(later, sub.id).Ok?
  {
    var created := AfterCreate(db, sub, limits, nowMs);
    CreateKeepsDbInv(db, sub, limits, nowMs);
    TrailsAreLegal(created, ops, sub.id);
    IdentityStays(Trail(created, ops, sub.id), ops);
    RunKeepsDbInv(created, ops);
    var later := Run(created, ops);
    assert RowInv(sub.id, later.rows[sub.id]);
    assert later.index[later.rows[sub.id].key].submissionId == sub.id;
  }

  /** Whether a retry is, for the client, the request that was accepted. */
  predicate SameRequest(accepted: RetryIdentity.Request, mapped: bool, retry: RetryIdentity.Request)
    requires accepted.arguments.Canonical?
  {
    && retry.tool == accepted.tool && retry.arguments.Canonical?
    && JsonDepth.Print(retry.arguments.value) == JsonDepth.Print(accepted.arguments.value)
    && (mapped ==> retry.thread == accepted.thread)
  }

  lemma RetriesAreDecided(
    later: Db, id: string, key: string, accepted: RetryIdentity.Request, mapped: bool,
    retry: RetryIdentity.Request, own: Option<string>)
    requires RetryIdentity.ValidRequest(accepted) && RetryIdentity.ValidRequest(retry)
    requires RetryIdentity.AcceptedHash(accepted, mapped).Some? && key in later.index && Loaded(later, id).Ok?
    requires later.index[key].submissionId == id
    requires Some(later.index[key].argsHash) == RetryIdentity.AcceptedHash(accepted, mapped)
    requires own == Identity(retry, Some(retry.thread)) || own == Identity(retry, None)
    ensures var answer := if SameRequest(accepted, mapped, retry) then Replayed(id) else Refused(IdempotencyConflict);
      && Reconciled(later, key, RaceHashes(retry.tool, Candidates(retry))) == answer
      && (own.Some? && RetryIdentity.WithinCeilings(own.value) ==>
            Reconciled(later, key, RaceHashes(retry.tool, Candidates(retry) + [own])) == answer)
  {
    RetryIdentity.ExactRetryDecision(accepted, mapped, retry);
    CandidatesAreTheIdentities(retry);
    if own.Some? && RetryIdentity.WithinCeilings(own.value) {
      RaceHashesOfOwn(retry.tool, Candidates(retry), own.value);
      RetryIdentity.InsertRaceDecidesAlike(retry, true);
      RetryIdentity.InsertRaceDecidesAlike(retry, false);
    }
  }

  lemma AcceptedHashIsStored(
    sub: NewSubmission, id: string, key: string, accepted: RetryIdentity.Request, mapped: bool, upstream: Option<string>)
    requires sub == SubmissionOf(id, key, accepted, mapped, upstream) && WellFormed(sub)
    ensures RetryIdentity.AcceptedHash(accepted, mapped)
         == Some(RetryIdentity.HashInput(sub.tool, sub.requestArguments.value))
  {
  }

  lemma InsertsAreDecided(
    later: Db, id: string, key: string, accepted: RetryIdentity.Request, mapped: bool,
    retry: RetryIdentity.Request, maps: bool, id': string, upstream': Option<string>, limits': Limits)
    requires RetryIdentity.ValidRequest(accepted) && RetryIdentity.ValidRequest(retry)
    requires RetryIdentity.AcceptedHash(accepted, mapped).Some? && key in later.index && Loaded(later, id).Ok?
    requires later.index[key].submissionId == id
    requires Some(later.index[key].argsHash) == RetryIdentity.AcceptedHash(accepted, mapped)
    ensures var answer := if SameRequest(accepted, mapped, retry) then Replayed(id) else Refused(IdempotencyConflict);
      var insert := SubmissionOf(id', key, retry, maps, upstream');
      && Reconciled(later, key, RaceHashes(retry.tool, Candidates(retry))) == answer
      && CreationOf(later, insert, limits') == if WellFormed(insert) then answer else Refused(Invalid)
  {
    var own := SubmissionOf(id', key, retry, maps, upstream').requestArguments;
    RetriesAreDecided(later, id, key, accepted, mapped, retry, own);
  }

  /** Once a request was accepted under a key, and for as long as its row is kept, every later
      use of the key is answered alike by the read-only lookup and by an insert that loses:
      with the original submission exactly when tool and canonical arguments agree and the
      thread ID was not mappable at acceptance or is the same, otherwise with a conflict. Only
      an ill-formed insert, refused before the key is looked at, is answered differently. */
  lemma RetriesFindTheOriginal(
    db: Db, id: string, key: string, accepted: RetryIdentity.Request, mapped: bool, upstream: Option<string>,
    limits: Limits, nowMs: int, ops: seq<Op>, later: Db,
    retry: RetryIdentity.Request, maps: bool, id': string, upstream': Option<string>, limits': Limits)
    requires DbInv(db) && ValidLimits(limits) && ValidOps(ops)
    requires RetryIdentity.ValidRequest(accepted) && RetryIdentity.ValidRequest(retry)
    requires var sub := SubmissionOf(id, key, accepted, mapped, upstream);
      && CreationOf(db, sub, limits).Created?
      && Kept(AfterCreate(db, sub, limits, nowMs), ops, id)
      && later == Run(AfterCreate(db, sub, limits, nowMs), ops)
    ensures accepted.arguments.Canonical? && key in later.index
    ensures var answer := if SameRequest(accepted, mapped, retry) then Replayed(id) else Refused(IdempotencyConflict);
      var insert := SubmissionOf(id', key, retry, maps, upstream');
      && Reconciled(later, key, RaceHashes(retry.tool, Candidates(retry))) == answer
      && CreationOf(later, insert, limits') == if WellFormed(insert) then answer else Refused(Invalid)
  {
    var sub := SubmissionOf(id, key, accepted, mapped, upstream);
    KeyStaysTaken(db, sub, limits, nowMs, ops);
    AcceptedHashIsStored(sub, id, key, accepted, mapped, upstream);
    InsertsAreDecided(later, id, key, accepted, mapped, retry, maps, id', upstream', limits');
  }
}
