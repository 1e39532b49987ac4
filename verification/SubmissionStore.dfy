/** The submission tables and every operation that writes them (internal/store). Each
    operation is one IMMEDIATE transaction. The functions say what an operation refuses and
    what it writes; the class keeps the tables and runs the operations. */
module SubmissionStore {
  import opened Prelude
  import opened SubmissionStates
  import Leases
  import EventHistory
  import RetryIdentity

  // ---------------------------------------------------------------- the tables

  datatype ErrorEnvelope = ErrorEnvelope(code: string, message: string, retryable: bool)

  const ERROR_CODES := {
    "invalid_request", "operation_not_allowed", "operation_contract_mismatch", "idempotency_conflict",
    "submission_not_found", "submission_expired", "authentication_required", "authorization_failed",
    "protocol_mismatch", "upstream_unavailable", "upstream_execution_failed", "outcome_unknown",
    "result_too_large", "state_unavailable", "internal", "not_implemented"
  }

  predicate ValidError(e: ErrorEnvelope) {
    e.code in ERROR_CODES && 0 < |e.message| <= 1024
  }

  /** The non-secret task observation beside a submission. */
  datatype TaskNote = TaskNote(ttlMs: int, pollIntervalMs: int, capabilities: string, updatedAt: string)

  /** One row of submissions. Sealed columns hold their plaintext; NULL is None. */
  datatype Row = Row(
    key: string, tool: string, argsHash: string, limits: AcceptedLimits, status: Status,
    args: Option<string>, taskId: Option<string>, events: Option<seq<EventHistory.Event>>, sequence: int,
    result: Option<string>, errorCode: Option<string>, errorMessage: Option<string>, errorRetryable: bool,
    evidence: Option<string>, inputRequests: Option<string>, note: TaskNote,
    createdAt: int, updatedAt: int,
    completedAt: Option<int>, payloadExpiresAt: Option<int>, tombstoneExpiresAt: Option<int>)

  datatype IndexEntry = IndexEntry(argsHash: string, submissionId: string, createdAt: int)

  datatype Answer = Answer(response: string, answeredAt: int, sentAt: Option<int>)

  /** `answers` is keyed by submission and input request. */
  datatype Db = Db(
    rows: map<string, Row>, index: map<string, IndexEntry>, answers: map<(string, string), Answer>,
    leases: map<string, Leases.LeaseRow>)

  datatype StoreError =
    | Invalid | NotFound | Unavailable | LeaseNotOwned | IllegalTransition | ConcurrentUpdate
    | IdempotencyConflict | DuplicateId | ResultTooLarge | TerminalState | TaskConflict | AnswerConflict
    | Events(error: EventHistory.MergeError)

  datatype LeaseIdentity = LeaseIdentity(name: string, owner: string)

  /** requireLiveLease; an operation without a lease is always let through. */
  predicate LeaseLive(db: Db, lease: Option<LeaseIdentity>, nowMs: int) {
    lease.Some? ==> Leases.Held(Lookup(db.leases, lease.value.name), lease.value.owner, nowMs)
  }

  /** Reading one row repeats the check of its limits. */
  function Loaded(db: Db, id: string): Result<Row, StoreError> {
    if id !in db.rows then Err(NotFound)
    else if !ValidAccepted(db.rows[id].limits) || !Valid(db.rows[id].status) then Err(Unavailable)
    else Ok(db.rows[id])
  }

  // ---------------------------------------------------------------- creation

  /** Documents are given by their canonical text, None when they have none. */
  datatype NewSubmission = NewSubmission(
    id: string, key: string, tool: string, arguments: Option<string>, requestArguments: Option<string>,
    candidates: seq<Option<string>>)

  /** The hashes the insert reconciles against when it loses: every candidate inside the
      ceilings, and its own. */
  function RaceHashes(tool: string, candidates: seq<Option<string>>): set<string> {
    set c | c in candidates && c.Some? && RetryIdentity.WithinCeilings(c.value)
      :: RetryIdentity.HashInput(tool, c.value)
  }

  datatype Creation = Created | Replayed(id: string) | Refused(error: StoreError)

  /** What a claimed key answers to a set of hashes. */
  function Reconciled(db: Db, key: string, hashes: set<string>): Creation
    requires key in db.index
  {
    if db.index[key].argsHash !in hashes then Refused(IdempotencyConflict)
    else
      match Loaded(db, db.index[key].submissionId)
      case Err(e) => Refused(e)
      case Ok(_) => Replayed(db.index[key].submissionId)
  }

  predicate WithinProfile(arguments: string, l: Limits) {
    |arguments| <= l.argumentsBytes && RetryIdentity.DepthOf(arguments) <= l.argumentDepth
  }

  /** What is checked before the key is looked at. */
  predicate WellFormed(new': NewSubmission) {
    && new'.id != "" && new'.key != "" && new'.tool != ""
    && new'.arguments.Some? && RetryIdentity.WithinCeilings(new'.arguments.value)
    && new'.requestArguments.Some? && RetryIdentity.WithinCeilings(new'.requestArguments.value)
  }

  function CreationOf(db: Db, new': NewSubmission, l: Limits): Creation {
    if !WellFormed(new') then Refused(Invalid)
    else if new'.key in db.index then
      Reconciled(db, new'.key, RaceHashes(new'.tool, new'.candidates + [new'.requestArguments]))
    else if !WithinProfile(new'.arguments.value, l) then Refused(Invalid)
    else if new'.id in db.rows then Refused(DuplicateId)
    else Created
  }

  const NO_NOTE := TaskNote(0, 0, "", "")

  function AcceptedRow(new': NewSubmission, hash: string, l: Limits, nowMs: int): Row {
    Row(new'.key, new'.tool, hash, AcceptedFrom(l), Accepted, new'.arguments, Some(""), None, 0,
        None, None, None, false, None, None, NO_NOTE, nowMs, nowMs, None, None, None)
  }

  function AfterCreate(db: Db, new': NewSubmission, l: Limits, nowMs: int): Db {
    if CreationOf(db, new', l).Created? then
      var hash := RetryIdentity.HashInput(new'.tool, new'.requestArguments.value);
      db.(rows := db.rows[new'.id := AcceptedRow(new', hash, l, nowMs)],
          index := db.index[new'.key := IndexEntry(hash, new'.id, nowMs)])
    else db
  }

  // ---------------------------------------------------------------- state moves

  datatype Detail = Detail(taskId: string, error: Option<ErrorEnvelope>)

  function WithError(row: Row, error: ErrorEnvelope): Row {
    row.(errorCode := Some(error.code), errorMessage := Some(error.message), errorRetryable := error.retryable)
  }

  function Stamped(row: Row, nowMs: int): Row {
    row.(completedAt := Some(nowMs),
         payloadExpiresAt := Some(nowMs + row.limits.payloadRetentionMs),
         tombstoneExpiresAt := Some(nowMs + row.limits.tombstoneRetentionMs))
  }

  /** What stops a write that moves a row, in the order the code checks. */
  function MoveRefusal(db: Db, id: string, to: Status, lease: Option<LeaseIdentity>, nowMs: int): Option<StoreError> {
    if !LeaseLive(db, lease, nowMs) then Some(LeaseNotOwned)
    else
      match Loaded(db, id)
      case Err(e) => Some(e)
      case Ok(row) => if Allowed(row.status, to) then None else Some(IllegalTransition)
  }

  predicate ValidTransition(to: Status, detail: Detail) {
    && Valid(to) && to != Completed
    && (Terminal(to) <==> detail.error.Some?)
    && (detail.error.Some? ==> ValidError(detail.error.value))
  }

  function TransitionRefusal(db: Db, id: string, to: Status, detail: Detail, lease: Option<LeaseIdentity>, nowMs: int)
    : Option<StoreError>
  {
    if !ValidTransition(to, detail) then Some(Invalid) else MoveRefusal(db, id, to, lease, nowMs)
  }

  function Moved(row: Row, to: Status, detail: Detail, nowMs: int): Row {
    var a := row.(status := to, updatedAt := nowMs);
    var b := if detail.taskId != "" then a.(taskId := Some(detail.taskId)) else a;
    var c := if detail.error.Some? then WithError(b, detail.error.value) else b;
    if Terminal(to) then Stamped(c, nowMs) else c
  }

  function AfterTransition(db: Db, id: string, to: Status, detail: Detail, lease: Option<LeaseIdentity>, nowMs: int): Db {
    if TransitionRefusal(db, id, to, detail, lease, nowMs).Some? then db
    else db.(rows := db.rows[id := Moved(db.rows[id], to, detail, nowMs)])
  }

  /** What finish writes: a result, or a failure. */
  datatype Outcome = Success(encoded: string) | Failure(error: ErrorEnvelope)

  function OutcomeStatus(outcome: Outcome): Status {
    if outcome.Success? then Completed else Failed
  }

  function Finished(row: Row, outcome: Outcome, nowMs: int): Row {
    var a := Stamped(row.(status := OutcomeStatus(outcome), updatedAt := nowMs), nowMs);
    match outcome
    case Success(encoded) =>
      a.(result := Some(encoded), errorCode := None, errorMessage := None, errorRetryable := false)
    case Failure(error) => WithError(a.(result := None), error)
  }

  function AfterFinish(db: Db, id: string, outcome: Outcome, lease: Option<LeaseIdentity>, nowMs: int): Db {
    if MoveRefusal(db, id, OutcomeStatus(outcome), lease, nowMs).Some? then db
    else db.(rows := db.rows[id := Finished(db.rows[id], outcome, nowMs)])
  }

  const RESULT_TOO_LARGE := ErrorEnvelope("result_too_large",
    "The upstream operation completed, but its result exceeded the configured storage limit.", false)

  const EVIDENCE_TOO_LARGE := ErrorEnvelope("result_too_large",
    "The upstream task ended, but its terminal evidence exceeded the configured storage limit.", false)

  /** What Complete stores for an encoded result: the result, or, when it is over the accepted
      bound, a terminal failure. */
  function CompletionOutcome(limits: AcceptedLimits, encoded: string): Outcome {
    if |encoded| > limits.resultBytes then Failure(RESULT_TOO_LARGE) else Success(encoded)
  }

  function AfterComplete(db: Db, id: string, encoded: string, lease: Option<LeaseIdentity>, nowMs: int): Db {
    if encoded == "" || Loaded(db, id).Err? then db
    else AfterFinish(db, id, CompletionOutcome(db.rows[id].limits, encoded), lease, nowMs)
  }

  function AfterFail(db: Db, id: string, error: ErrorEnvelope, lease: LeaseIdentity, nowMs: int): Db {
    if !ValidError(error) then db else AfterFinish(db, id, Failure(error), Some(lease), nowMs)
  }

  predicate OversizeEvidence(row: Row, evidence: string) {
    |evidence| > row.limits.resultBytes
  }

  /** The status and error a capture ends in: evidence over the bound turns it into a failure. */
  function CaptureTarget(row: Row, to: Status, error: ErrorEnvelope, evidence: string): (Status, ErrorEnvelope) {
    if OversizeEvidence(row, evidence) then (Failed, EVIDENCE_TOO_LARGE) else (to, error)
  }

  function Captured(row: Row, to: Status, error: ErrorEnvelope, evidence: string, nowMs: int): Row {
    var (status, stored) := CaptureTarget(row, to, error, evidence);
    WithError(
      Stamped(row.(status := status, updatedAt := nowMs, inputRequests := None,
                   evidence := if evidence == "" || OversizeEvidence(row, evidence) then None else Some(evidence)),
              nowMs),
      stored)
  }

  /** A capture on a row that already ended is no error and writes nothing. */
  function CaptureRefusal(db: Db, id: string, lease: LeaseIdentity, to: Status, error: ErrorEnvelope, nowMs: int)
    : Option<StoreError>
  {
    if !Terminal(to) || to == Completed || !ValidError(error) then Some(Invalid)
    else if !LeaseLive(db, Some(lease), nowMs) then Some(LeaseNotOwned)
    else
      match Loaded(db, id)
      case Err(e) => Some(e)
      case Ok(row) => if Terminal(row.status) || Allowed(row.status, to) then None else Some(IllegalTransition)
  }

  function AfterCapture(
    db: Db, id: string, lease: LeaseIdentity, to: Status, error: ErrorEnvelope, evidence: string, nowMs: int): Db
  {
    if CaptureRefusal(db, id, lease, to, error, nowMs).Some? || Terminal(db.rows[id].status) then db
    else db.(rows := db.rows[id := Captured(db.rows[id], to, error, evidence, nowMs)])
  }

  // ---------------------------------------------------------------- events and tasks

  function EventBounds(limits: AcceptedLimits): EventHistory.EventLimits {
    EventHistory.EventLimits(limits.eventBytes, limits.maxEvents, limits.eventsBytes)
  }

  function Retained(row: Row): seq<EventHistory.Event> {
    if row.events.Some? then row.events.value else []
  }

  function MergeOn(id: string, row: Row, events: seq<EventHistory.Event>)
    : Result<(seq<EventHistory.Event>, int), EventHistory.MergeError>
  {
    EventHistory.Merged(id, Retained(row), row.sequence, events, EventBounds(row.limits))
  }

  function AppendRefusal(db: Db, id: string, events: seq<EventHistory.Event>): Option<StoreError> {
    match Loaded(db, id)
    case Err(e) => Some(e)
    case Ok(row) =>
      if events == [] then None
      else if Terminal(row.status) then Some(TerminalState)
      else if MergeOn(id, row, events).Err? then Some(Events(MergeOn(id, row, events).error))
      else None
  }

  function AfterAppend(db: Db, id: string, events: seq<EventHistory.Event>, nowMs: int): Db {
    if AppendRefusal(db, id, events).Some? || events == [] then db
    else
      var (merged, last) := MergeOn(id, db.rows[id], events).value;
      db.(rows := db.rows[id := db.rows[id].(events := Some(merged), sequence := last, updatedAt := nowMs)])
  }

  const MAX_CAPABILITIES := 64 * 1024

  function SaveRefusal(db: Db, id: string, lease: LeaseIdentity, note: TaskNote, nowMs: int): Option<StoreError> {
    if id == "" || lease.name == "" || lease.owner == "" || |note.capabilities| > MAX_CAPABILITIES
       || note.ttlMs < 0 || note.pollIntervalMs < 0 then Some(Invalid)
    else if !LeaseLive(db, Some(lease), nowMs) then Some(LeaseNotOwned)
    else if id !in db.rows || Terminal(db.rows[id].status) then Some(ConcurrentUpdate)
    else None
  }

  function AfterSave(
    db: Db, id: string, lease: LeaseIdentity, note: TaskNote, inputRequests: string, nowMs: int): Db
  {
    if SaveRefusal(db, id, lease, note, nowMs).Some? then db
    else
      db.(rows := db.rows[id := db.rows[id].(
        note := note, inputRequests := if inputRequests == "" then None else Some(inputRequests), updatedAt := nowMs)])
  }

  predicate TaskFree(row: Row, taskId: string) {
    row.taskId.None? || row.taskId.value == "" || row.taskId.value == taskId
  }

  function AfterAttach(db: Db, id: string, taskId: string, nowMs: int): Db {
    if id == "" || taskId == "" || id !in db.rows || !TaskFree(db.rows[id], taskId) then db
    else db.(rows := db.rows[id := db.rows[id].(taskId := Some(taskId), updatedAt := nowMs)])
  }

  function ReplaceRefusal(db: Db, id: string, owner: string, taskId: string, nowMs: int): Option<StoreError> {
    if id == "" || owner == "" || taskId == "" then Some(Invalid)
    else if !LeaseLive(db, Some(LeaseIdentity("submission/" + id, owner)), nowMs) then Some(LeaseNotOwned)
    else
      match Loaded(db, id)
      case Err(e) => Some(e)
      case Ok(row) => if row.status == Running then None else Some(IllegalTransition)
  }

  function AfterReplace(db: Db, id: string, owner: string, taskId: string, nowMs: int): Db {
    if ReplaceRefusal(db, id, owner, taskId, nowMs).Some? then db
    else db.(rows := db.rows[id := db.rows[id].(taskId := Some(taskId), updatedAt := nowMs)])
  }

  // ---------------------------------------------------------------- input responses

  function AfterAnswer(db: Db, id: string, request: string, response: string, nowMs: int): Db {
    if id == "" || request == "" || response == "" || (id, request) in db.answers then db
    else db.(answers := db.answers[(id, request) := Answer(response, nowMs, None)])
  }

  function Marked(answers: map<(string, string), Answer>, id: string, request: string, nowMs: int)
    : map<(string, string), Answer>
  {
    if (id, request) in answers && answers[(id, request)].sentAt.None?
    then answers[(id, request) := answers[(id, request)].(sentAt := Some(nowMs))]
    else answers
  }

  /** The rows a marking call changes: those named before the first empty request ID. */
  function MarkedAll(answers: map<(string, string), Answer>, id: string, requests: seq<string>, nowMs: int)
    : map<(string, string), Answer>
    decreases requests
  {
    if requests == [] || requests[0] == "" then answers
    else MarkedAll(Marked(answers, id, requests[0], nowMs), id, requests[1..], nowMs)
  }

  // ---------------------------------------------------------------- retention

  predicate HoldsPayload(row: Row) {
    || row.args.Some? || row.taskId.Some? || row.events.Some? || row.result.Some? || row.errorCode.Some?
    || row.errorMessage.Some? || row.errorRetryable || row.evidence.Some? || row.inputRequests.Some?
  }

  predicate PayloadLapsed(row: Row, nowMs: int) {
    row.completedAt.Some? && row.payloadExpiresAt.Some? && row.payloadExpiresAt.value <= nowMs
  }

  predicate TombstoneLapsed(row: Row, nowMs: int) {
    row.tombstoneExpiresAt.Some? && row.tombstoneExpiresAt.value <= nowMs
  }

  function Emptied(row: Row, nowMs: int): Row {
    row.(status := Expired, args := None, taskId := None, events := None, result := None, errorCode := None,
         errorMessage := None, errorRetryable := false, evidence := None, inputRequests := None, updatedAt := nowMs)
  }

  function Swept(row: Row, nowMs: int): Row {
    if PayloadLapsed(row, nowMs) && HoldsPayload(row) then Emptied(row, nowMs) else row
  }

  /** Same request, same limits, same deadlines. */
  predicate OnlyPayloadDiffers(row: Row, after: Row) {
    && after.key == row.key && after.tool == row.tool && after.argsHash == row.argsHash && after.limits == row.limits
    && after.sequence == row.sequence && after.note == row.note && after.createdAt == row.createdAt
    && after.completedAt == row.completedAt && after.payloadExpiresAt == row.payloadExpiresAt
    && after.tombstoneExpiresAt == row.tombstoneExpiresAt && after.status == Expired
  }

  function AllSwept(rows: map<string, Row>, nowMs: int): map<string, Row> {
    map id | id in rows :: Swept(rows[id], nowMs)
  }

  function ExpiringIds(rows: map<string, Row>, nowMs: int): set<string> {
    set id | id in rows && PayloadLapsed(rows[id], nowMs) && HoldsPayload(rows[id])
  }

  function LapsedIds(rows: map<string, Row>, nowMs: int): set<string> {
    set id | id in rows && TombstoneLapsed(rows[id], nowMs)
  }

  /** The tables after the rows named by `gone` are deleted with what belongs to them. */
  function Without(db: Db, gone: set<string>): Db
    requires gone <= db.rows.Keys
  {
    db.(rows := db.rows - gone,
        index := db.index - (set id | id in gone :: db.rows[id].key),
        answers := map k | k in db.answers && k.0 !in gone :: db.answers[k])
  }

  function AfterGC(db: Db, nowMs: int): Db {
    var swept := db.(rows := AllSwept(db.rows, nowMs));
    Without(swept, LapsedIds(swept.rows, nowMs))
  }

  // ---------------------------------------------------------------- what an operation writes, column by column

  /** The row can be read. */
  predicate Readable(db: Db, id: string) {
    id in db.rows && ValidAccepted(db.rows[id].limits) && Valid(db.rows[id].status)
  }

  /** A live lease when one is asked for, a readable row, and a move the state machine allows. */
  predicate LetThrough(db: Db, id: string, to: Status, lease: Option<LeaseIdentity>, nowMs: int) {
    && (lease.Some? ==> Leases.Held(Lookup(db.leases, lease.value.name), lease.value.owner, nowMs))
    && Readable(db, id) && Allowed(db.rows[id].status, to)
  }

  predicate HoldsError(row: Row, e: ErrorEnvelope) {
    row.errorCode == Some(e.code) && row.errorMessage == Some(e.message) && row.errorRetryable == e.retryable
  }

  predicate SameError(row: Row, after: Row) {
    after.errorCode == row.errorCode && after.errorMessage == row.errorMessage && after.errorRetryable == row.errorRetryable
  }

  /** The completion time and both deadlines of a row that ends now. */
  predicate EndsAt(row: Row, after: Row, nowMs: int) {
    && after.completedAt == Some(nowMs)
    && after.payloadExpiresAt == Some(nowMs + row.limits.payloadRetentionMs)
    && after.tombstoneExpiresAt == Some(nowMs + row.limits.tombstoneRetentionMs)
  }

  predicate SameEnd(row: Row, after: Row) {
    && after.completedAt == row.completedAt && after.payloadExpiresAt == row.payloadExpiresAt
    && after.tombstoneExpiresAt == row.tombstoneExpiresAt
  }

  /** The columns no operation but a sweep ever changes. */
  predicate SameAccepted(row: Row, after: Row) {
    && after.key == row.key && after.tool == row.tool && after.argsHash == row.argsHash && after.limits == row.limits
    && after.args == row.args && after.createdAt == row.createdAt
  }

  predicate SameHistory(row: Row, after: Row) {
    after.events == row.events && after.sequence == row.sequence && after.note == row.note
  }

  predicate CreatedColumns(after: Row, sub: NewSubmission, l: Limits, nowMs: int) {
    && after.key == sub.key && after.tool == sub.tool && after.args == sub.arguments && after.status == Accepted
    && sub.requestArguments.Some? && after.argsHash == RetryIdentity.HashInput(sub.tool, sub.requestArguments.value)
    && after.limits == AcceptedFrom(l) && after.taskId == Some("") && Retained(after) == [] && after.sequence == 0
    && after.result.None? && after.errorCode.None? && after.errorMessage.None? && !after.errorRetryable
    && after.evidence.None? && after.inputRequests.None? && after.note == NO_NOTE
    && after.createdAt == nowMs && after.updatedAt == nowMs
    && after.completedAt.None? && after.payloadExpiresAt.None? && after.tombstoneExpiresAt.None?
  }

  predicate TransitionColumns(row: Row, after: Row, to: Status, detail: Detail, nowMs: int) {
    && after.status == to && after.updatedAt == nowMs
    && after.taskId == (if detail.taskId != "" then Some(detail.taskId) else row.taskId)
    && (if detail.error.Some? then HoldsError(after, detail.error.value) else SameError(row, after))
    && (if Terminal(to) then EndsAt(row, after, nowMs) else SameEnd(row, after))
    && SameAccepted(row, after) && SameHistory(row, after)
    && after.result == row.result && after.evidence == row.evidence && after.inputRequests == row.inputRequests
  }

  /** Exactly one of `result` and `failure` is given. */
  predicate FinishColumns(row: Row, after: Row, result: Option<string>, failure: Option<ErrorEnvelope>, nowMs: int) {
    && after.status == (if result.Some? then Completed else Failed) && after.updatedAt == nowMs
    && after.result == result
    && (if failure.Some? then HoldsError(after, failure.value)
        else after.errorCode.None? && after.errorMessage.None? && !after.errorRetryable)
    && EndsAt(row, after, nowMs) && SameAccepted(row, after) && SameHistory(row, after)
    && after.taskId == row.taskId && after.evidence == row.evidence && after.inputRequests == row.inputRequests
  }

  /** Evidence within the accepted bound is stored as given, with the given status and error;
      evidence over it is left out and the row fails. */
  predicate CaptureColumns(row: Row, after: Row, to: Status, failure: ErrorEnvelope, evidence: string, nowMs: int) {
    && (if |evidence| <= row.limits.resultBytes || evidence == "" then
          && after.status == to && HoldsError(after, failure)
          && after.evidence == (if evidence == "" then None else Some(evidence))
        else after.status == Failed && HoldsError(after, EVIDENCE_TOO_LARGE) && after.evidence.None?)
    && after.updatedAt == nowMs && after.inputRequests.None?
    && EndsAt(row, after, nowMs) && SameAccepted(row, after) && SameHistory(row, after)
    && after.taskId == row.taskId && after.result == row.result
  }

  /** The retained history after an append is the longest tail of everything so far that fits
      the bounds the row was accepted under (TrimmedIsTheLongestFittingSuffix). */
  predicate AppendColumns(row: Row, after: Row, events: seq<EventHistory.Event>, nowMs: int)
    requires events != []
  {
    && after.events == Some(EventHistory.Trimmed(
         Retained(row) + events, EventHistory.EventLimits(row.limits.eventBytes, row.limits.maxEvents, row.limits.eventsBytes)))
    && after.sequence == events[|events| - 1].sequence && after.updatedAt == nowMs
    && after == row.(events := after.events, sequence := after.sequence, updatedAt := nowMs)
  }

  lemma MovedWrites(row: Row, to: Status, detail: Detail, nowMs: int)
    ensures TransitionColumns(row, Moved(row, to, detail, nowMs), to, detail, nowMs)
  {
    var a := row.(status := to, updatedAt := nowMs);
    var b := if detail.taskId != "" then a.(taskId := Some(detail.taskId)) else a;
    var c := if detail.error.Some? then WithError(b, detail.error.value) else b;
    assert SameEnd(row, c) && c.limits == row.limits;
    if Terminal(to) {
      assert Moved(row, to, detail, nowMs) == Stamped(c, nowMs);
    } else {
      assert Moved(row, to, detail, nowMs) == c;
    }
  }

  lemma FinishedWrites(row: Row, outcome: Outcome, nowMs: int)
    ensures FinishColumns(row, Finished(row, outcome, nowMs),
                          if outcome.Success? then Some(outcome.encoded) else None,
                          if outcome.Failure? then Some(outcome.error) else None, nowMs)
  {
  }

  lemma CapturedWrites(row: Row, to: Status, failure: ErrorEnvelope, evidence: string, nowMs: int)
    requires ValidAccepted(row.limits)
    ensures CaptureColumns(row, Captured(row, to, failure, evidence, nowMs), to, failure, evidence, nowMs)
  {
  }

  /** The request IDs a marking call comes to: those before the first empty one. */
  function Listed(requests: seq<string>): seq<string> {
    if requests == [] || requests[0] == "" then [] else [requests[0]] + Listed(requests[1..])
  }

  lemma ListedIsAll(requests: seq<string>)
    requires "" !in requests
    ensures Listed(requests) == requests
  {
    if requests != [] {
      ListedIsAll(requests[1..]);
    }
  }

  /** A marking call marks exactly the listed responses that are there and unsent. */
  lemma {:induction false} MarkedExactly(
    answers: map<(string, string), Answer>, id: string, requests: seq<string>, nowMs: int)
    ensures MarkedAll(answers, id, requests, nowMs).Keys == answers.Keys
    ensures forall k :: k in answers ==> MarkedAll(answers, id, requests, nowMs)[k]
                                         == if k.0 == id && k.1 in Listed(requests) && answers[k].sentAt.None?
                                            then answers[k].(sentAt := Some(nowMs)) else answers[k]
    decreases requests
  {
    if requests == [] || requests[0] == "" {
    } else {
      var one := Marked(answers, id, requests[0], nowMs);
      MarkedExactly(one, id, requests[1..], nowMs);
      forall k | k in answers
        ensures MarkedAll(answers, id, requests, nowMs)[k]
                == if k.0 == id && k.1 in Listed(requests) && answers[k].sentAt.None?
                   then answers[k].(sentAt := Some(nowMs)) else answers[k]
      {
        assert k == (k.0, k.1);
        assert MarkedAll(answers, id, requests, nowMs)[k] == MarkedAll(one, id, requests[1..], nowMs)[k];
      }
    }
  }

  // ---------------------------------------------------------------- the operations

  class Store {
    var rows: map<string, Row>
    var index: map<string, IndexEntry>
    var answers: map<(string, string), Answer>
    var leases: map<string, Leases.LeaseRow>

    constructor ()
      ensures Contents() == Db(map[], map[], map[], map[])
    {
      rows, index, answers, leases := map[], map[], map[], map[];
    }

    function Contents(): Db
      reads this
    {
      Db(rows, index, answers, leases)
    }

    method RequireLiveLease(lease: Option<LeaseIdentity>, nowMs: int) returns (live: bool)
      ensures live <==> (lease.Some? ==> Leases.Held(Lookup(leases, lease.value.name), lease.value.owner, nowMs))
      ensures live <==> LeaseLive(Contents(), lease, nowMs)
    {
      if lease.None? {
        return true;
      }
      var name, owner := lease.value.name, lease.value.owner;
      live := name in leases && leases[name].owner == owner && leases[name].expiresAt > nowMs;
    }

    method Load(id: string) returns (r: Result<Row, StoreError>)
      ensures r == Loaded(Contents(), id)
      ensures r.Ok? <==> Readable(Contents(), id)
      ensures r.Ok? ==> r.value == rows[id]
    {
      if id !in rows {
        return Err(NotFound);
      }
      if !ValidAccepted(rows[id].limits) || !Valid(rows[id].status) {
        return Err(Unavailable);
      }
      return Ok(rows[id]);
    }

    /** The row to move, when the lease is live, the row is readable and the move is allowed. */
    method LoadForMove(id: string, to: Status, lease: Option<LeaseIdentity>, nowMs: int)
      returns (r: Result<Row, StoreError>)
      ensures r.Err? ==> MoveRefusal(Contents(), id, to, lease, nowMs) == Some(r.error)
      ensures r.Ok? ==> MoveRefusal(Contents(), id, to, lease, nowMs).None? && id in rows && r.value == rows[id]
      ensures r.Ok? <==> LetThrough(Contents(), id, to, lease, nowMs)
    {
      var live := RequireLiveLease(lease, nowMs);
      if !live {
        return Err(LeaseNotOwned);
      }
      r := Load(id);
      if r.Ok? && !Allowed(r.value.status, to) {
        return Err(IllegalTransition);
      }
    }

    method CreateSubmission(sub: NewSubmission, l: Limits, nowMs: int) returns (r: Creation)
      modifies this
      ensures r == old(CreationOf(Contents(), sub, l))
      ensures Contents() == old(AfterCreate(Contents(), sub, l, nowMs))
      ensures r.Created? <==>
        && sub.id != "" && sub.key != "" && sub.tool != "" && sub.key !in old(index) && sub.id !in old(rows)
        && sub.arguments.Some? && RetryIdentity.WithinCeilings(sub.arguments.value)
        && |sub.arguments.value| <= l.argumentsBytes && RetryIdentity.DepthOf(sub.arguments.value) <= l.argumentDepth
        && sub.requestArguments.Some? && RetryIdentity.WithinCeilings(sub.requestArguments.value)
      ensures !r.Created? ==> Contents() == old(Contents())
      ensures r.Created? ==>
        && sub.id in rows && CreatedColumns(rows[sub.id], sub, l, nowMs) && rows == old(rows)[sub.id := rows[sub.id]]
        && index == old(index)[sub.key := IndexEntry(rows[sub.id].argsHash, sub.id, nowMs)]
    {
      if sub.id == "" || sub.key == "" || sub.tool == "" {
        return Refused(Invalid);
      }
      if sub.arguments.None? || !RetryIdentity.WithinCeilings(sub.arguments.value) {
        return Refused(Invalid);
      }
      if sub.requestArguments.None? || !RetryIdentity.WithinCeilings(sub.requestArguments.value) {
        return Refused(Invalid);
      }
      var hash := RetryIdentity.HashInput(sub.tool, sub.requestArguments.value);
      if sub.key in index {
        var hashes := CollectHashes(sub.tool, sub.candidates);
        assert RaceHashes(sub.tool, sub.candidates + [sub.requestArguments]) == hashes + {hash} by {
          RaceHashesOfOwn(sub.tool, sub.candidates, sub.requestArguments.value);
        }
        r := Reconcile(sub.key, hashes + {hash});
        return;
      }
      if !WithinProfile(sub.arguments.value, l) {
        return Refused(Invalid);
      }
      if sub.id in rows {
        return Refused(DuplicateId);
      }
      index := index[sub.key := IndexEntry(hash, sub.id, nowMs)];
      rows := rows[sub.id := AcceptedRow(sub, hash, l, nowMs)];
      return Created;
    }

    method Reconcile(key: string, hashes: set<string>) returns (r: Creation)
      requires key in index
      ensures r == Reconciled(Contents(), key, hashes)
    {
      if index[key].argsHash in hashes {
        var existing := Load(index[key].submissionId);
        return if existing.Err? then Refused(existing.error) else Replayed(index[key].submissionId);
      }
      return Refused(IdempotencyConflict);
    }

    /** The read-only lookup of a retry; None means that the key is free. */
    method ReconcileIdempotentSubmission(key: string, tool: string, identities: seq<Option<string>>)
      returns (r: Option<Creation>)
      ensures r == if key == "" then Some(Refused(Invalid))
                   else if key !in index then None
                   else Some(Reconciled(Contents(), key, RaceHashes(tool, identities)))
    {
      if key == "" {
        return Some(Refused(Invalid));
      }
      var hashes := CollectHashes(tool, identities);
      if key !in index {
        return None;
      }
      var creation := Reconcile(key, hashes);
      return Some(creation);
    }

    /** The columns a transition writes. */
    method MovedRow(before: Row, to: Status, detail: Detail, nowMs: int) returns (row: Row)
      ensures row == Moved(before, to, detail, nowMs)
    {
      row := before.(status := to, updatedAt := nowMs);
      if detail.taskId != "" {
        row := row.(taskId := Some(detail.taskId));
      }
      if detail.error.Some? {
        row := WithError(row, detail.error.value);
      }
      if Terminal(to) {
        row := Stamped(row, nowMs);
      }
    }

    method Transition(id: string, to: Status, detail: Detail, lease: Option<LeaseIdentity>, nowMs: int)
      returns (r: Result<Row, StoreError>)
      modifies this
      ensures Contents() == old(AfterTransition(Contents(), id, to, detail, lease, nowMs))
      ensures r.Err? ==> Some(r.error) == old(TransitionRefusal(Contents(), id, to, detail, lease, nowMs))
      ensures r.Ok? ==> old(TransitionRefusal(Contents(), id, to, detail, lease, nowMs)).None?
                        && id in rows && r.value == rows[id]
      ensures r.Ok? <==> ValidTransition(to, detail) && old(LetThrough(Contents(), id, to, lease, nowMs))
      ensures r.Ok? ==> TransitionColumns(old(rows)[id], rows[id], to, detail, nowMs) && rows == old(rows)[id := rows[id]]
    {
      if !Valid(to) || to == Completed || (Terminal(to) && detail.error.None?) || (!Terminal(to) && detail.error.Some?) {
        return Err(Invalid);
      }
      if detail.error.Some? && !ValidError(detail.error.value) {
        return Err(Invalid);
      }
      r := LoadForMove(id, to, lease, nowMs);
      if r.Err? {
        return;
      }
      var row := MovedRow(r.value, to, detail, nowMs);
      MovedWrites(r.value, to, detail, nowMs);
      rows := rows[id := row];
      return Ok(row);
    }

    method Finish(id: string, outcome: Outcome, lease: Option<LeaseIdentity>, nowMs: int)
      returns (r: Result<Row, StoreError>)
      modifies this
      ensures Contents() == old(AfterFinish(Contents(), id, outcome, lease, nowMs))
      ensures r.Err? ==> Some(r.error) == old(MoveRefusal(Contents(), id, OutcomeStatus(outcome), lease, nowMs))
      ensures r.Ok? ==> old(MoveRefusal(Contents(), id, OutcomeStatus(outcome), lease, nowMs)).None?
                        && id in rows && r.value == rows[id]
      ensures r.Ok? <==> old(LetThrough(Contents(), id, if outcome.Success? then Completed else Failed, lease, nowMs))
      ensures r.Err? ==> Contents() == old(Contents())
      ensures r.Ok? ==>
        && FinishColumns(old(rows)[id], rows[id], if outcome.Success? then Some(outcome.encoded) else None,
                         if outcome.Failure? then Some(outcome.error) else None, nowMs)
        && rows == old(rows)[id := rows[id]]
    {
      r := LoadForMove(id, OutcomeStatus(outcome), lease, nowMs);
      if r.Err? {
        return;
      }
      var row := Finished(r.value, outcome, nowMs);
      FinishedWrites(r.value, outcome, nowMs);
      rows := rows[id := row];
      return Ok(row);
    }

    /** An oversized result is stored as a failure and still reported as an error. */
    method Complete(id: string, encoded: string, lease: Option<LeaseIdentity>, nowMs: int)
      returns (r: Result<Row, StoreError>)
      modifies this
      ensures Contents() == old(AfterComplete(Contents(), id, encoded, lease, nowMs))
      ensures r.Ok? ==> id in rows && r.value == rows[id] && rows[id].status == Completed
                        && rows[id].result == Some(encoded)
      ensures r == Err(ResultTooLarge) ==>
        id in rows && rows[id].status == Failed && rows[id].errorCode == Some(RESULT_TOO_LARGE.code)
      ensures r.Ok? <==>
        encoded != "" && old(LetThrough(Contents(), id, Completed, lease, nowMs)) && |encoded| <= old(rows)[id].limits.resultBytes
      ensures r == Err(ResultTooLarge) <==>
        encoded != "" && old(LetThrough(Contents(), id, Failed, lease, nowMs)) && |encoded| > old(rows)[id].limits.resultBytes
      ensures r.Ok? ==> FinishColumns(old(rows)[id], rows[id], Some(encoded), None, nowMs)
      ensures r == Err(ResultTooLarge) ==> FinishColumns(old(rows)[id], rows[id], None, Some(RESULT_TOO_LARGE), nowMs)
      ensures r.Err? && r.error != ResultTooLarge ==> Contents() == old(Contents())
    {
      if encoded == "" {
        return Err(Invalid);
      }
      var loaded := Load(id);
      if loaded.Err? {
        return Err(loaded.error);
      }
      if |encoded| > loaded.value.limits.resultBytes {
        var failed := Finish(id, Failure(RESULT_TOO_LARGE), lease, nowMs);
        return if failed.Err? then failed else Err(ResultTooLarge);
      }
      r := Finish(id, Success(encoded), lease, nowMs);
    }

    method FailLeased(id: string, lease: LeaseIdentity, error: ErrorEnvelope, nowMs: int)
      returns (r: Result<Row, StoreError>)
      modifies this
      ensures Contents() == old(AfterFail(Contents(), id, error, lease, nowMs))
      ensures r.Ok? ==> id in rows && r.value == rows[id] && rows[id].status == Failed
      ensures r.Ok? <==> ValidError(error) && old(LetThrough(Contents(), id, Failed, Some(lease), nowMs))
      ensures r.Ok? ==> FinishColumns(old(rows)[id], rows[id], None, Some(error), nowMs) && rows == old(rows)[id := rows[id]]
      ensures r.Err? ==> Contents() == old(Contents())
    {
      if !ValidError(error) {
        return Err(Invalid);
      }
      r := Finish(id, Failure(error), Some(lease), nowMs);
    }

    /** Evidence over the accepted bound is left out and turns the capture into a failure. */
    method CapturedRow(before: Row, to: Status, failure: ErrorEnvelope, evidence: string, nowMs: int)
      returns (row: Row)
      requires ValidAccepted(before.limits)
      ensures row == Captured(before, to, failure, evidence, nowMs)
    {
      var status, error, sealed := to, failure, None;
      if |evidence| > 0 {
        if |evidence| > before.limits.resultBytes {
          error := EVIDENCE_TOO_LARGE;
          status := Failed;
        } else {
          sealed := Some(evidence);
        }
      }
      row := before.(status := status, updatedAt := nowMs, inputRequests := None, evidence := sealed);
      row := WithError(Stamped(row, nowMs), error);
    }

    method CaptureTerminalLeased(
      id: string, lease: LeaseIdentity, to: Status, failure: ErrorEnvelope, evidence: string, nowMs: int)
      returns (r: Result<Row, StoreError>)
      modifies this
      ensures Contents() == old(AfterCapture(Contents(), id, lease, to, failure, evidence, nowMs))
      ensures r.Err? ==> Some(r.error) == old(CaptureRefusal(Contents(), id, lease, to, failure, nowMs))
      ensures r.Ok? ==> old(CaptureRefusal(Contents(), id, lease, to, failure, nowMs)).None?
                        && id in rows && r.value == rows[id] && Terminal(rows[id].status)
      ensures r.Ok? <==>
        && Terminal(to) && to != Completed && ValidError(failure)
        && Leases.Held(Lookup(old(leases), lease.name), lease.owner, nowMs) && old(Readable(Contents(), id))
        && (Terminal(old(rows)[id].status) || Allowed(old(rows)[id].status, to))
      ensures r.Err? || Terminal(old(rows)[id].status) ==> Contents() == old(Contents())
      ensures r.Ok? && !Terminal(old(rows)[id].status) ==>
        CaptureColumns(old(rows)[id], rows[id], to, failure, evidence, nowMs) && rows == old(rows)[id := rows[id]]
    {
      if !Terminal(to) || to == Completed || !ValidError(failure) {
        return Err(Invalid);
      }
      var live := RequireLiveLease(Some(lease), nowMs);
      if !live {
        return Err(LeaseNotOwned);
      }
      var loaded := Load(id);
      if loaded.Err? {
        return Err(loaded.error);
      }
      var row := loaded.value;
      if Terminal(row.status) {
        return Ok(row);
      }
      if !Allowed(row.status, to) {
        return Err(IllegalTransition);
      }
      CapturedWrites(row, to, failure, evidence, nowMs);
      row := CapturedRow(row, to, failure, evidence, nowMs);
      rows := rows[id := row];
      return Ok(row);
    }

    method AppendEvents(id: string, events: seq<EventHistory.Event>, nowMs: int) returns (r: Result<Row, StoreError>)
      modifies this
      ensures Contents() == old(AfterAppend(Contents(), id, events, nowMs))
      ensures r.Err? ==> Some(r.error) == old(AppendRefusal(Contents(), id, events))
      ensures r.Ok? ==> old(AppendRefusal(Contents(), id, events)).None? && id in rows && r.value == rows[id]
      ensures r.Ok? <==>
        && old(Readable(Contents(), id))
        && (events != [] ==>
              && !Terminal(old(rows)[id].status)
              && EventHistory.Acceptable(id, events, old(rows)[id].sequence,
                                         old(rows)[id].limits.eventBytes, old(rows)[id].limits.eventsBytes))
      ensures r.Err? || events == [] ==> Contents() == old(Contents())
      ensures r.Ok? && events != [] ==>
        AppendColumns(old(rows)[id], rows[id], events, nowMs) && rows == old(rows)[id := rows[id]]
    {
      var loaded := Load(id);
      if loaded.Err? || |events| == 0 {
        return loaded;
      }
      var row := loaded.value;
      if Terminal(row.status) {
        return Err(TerminalState);
      }
      EventHistory.AcceptedExactly(id, events, row.sequence, EventBounds(row.limits));
      var merged := EventHistory.MergeEvents(id, Retained(row), row.sequence, events, EventBounds(row.limits));
      if merged.Err? {
        return Err(Events(merged.error));
      }
      row := row.(events := Some(merged.value.0), sequence := merged.value.1, updatedAt := nowMs);
      rows := rows[id := row];
      return Ok(row);
    }

    method SaveTaskRecordLeased(id: string, lease: LeaseIdentity, note: TaskNote, inputRequests: string, nowMs: int)
      returns (error: Option<StoreError>)
      modifies this
      ensures Contents() == old(AfterSave(Contents(), id, lease, note, inputRequests, nowMs))
      ensures error == old(SaveRefusal(Contents(), id, lease, note, nowMs))
      ensures error.None? <==>
        && id != "" && lease.name != "" && lease.owner != ""
        && |note.capabilities| <= MAX_CAPABILITIES && 0 <= note.ttlMs && 0 <= note.pollIntervalMs
        && Leases.Held(Lookup(old(leases), lease.name), lease.owner, nowMs)
        && id in old(rows) && !Terminal(old(rows)[id].status)
      ensures error.Some? ==> Contents() == old(Contents())
      ensures error.None? ==>
        && id in rows && rows[id].note == note && rows[id].updatedAt == nowMs
        && rows[id].inputRequests == (if inputRequests == "" then None else Some(inputRequests))
        && rows[id] == old(rows)[id].(note := note, inputRequests := rows[id].inputRequests, updatedAt := nowMs)
        && rows == old(rows)[id := rows[id]]
    {
      if id == "" || lease.name == "" || lease.owner == "" || |note.capabilities| > MAX_CAPABILITIES
         || note.ttlMs < 0 || note.pollIntervalMs < 0 {
        return Some(Invalid);
      }
      var live := RequireLiveLease(Some(lease), nowMs);
      if !live {
        return Some(LeaseNotOwned);
      }
      if id !in rows || Terminal(rows[id].status) {
        return Some(ConcurrentUpdate);
      }
      var sealed := if |inputRequests| > 0 then Some(inputRequests) else None;
      rows := rows[id := rows[id].(note := note, inputRequests := sealed, updatedAt := nowMs)];
      return None;
    }

    method AttachTaskID(id: string, taskId: string, nowMs: int) returns (error: Option<StoreError>)
      modifies this
      ensures Contents() == old(AfterAttach(Contents(), id, taskId, nowMs))
      ensures error.None? <==>
        && id != "" && taskId != "" && id in old(rows)
        && (old(rows)[id].taskId.None? || old(rows)[id].taskId.value in {"", taskId})
      ensures error.None? ==>
        && id in rows && rows[id].taskId == Some(taskId)
        && rows == old(rows)[id := old(rows)[id].(taskId := Some(taskId), updatedAt := nowMs)]
      ensures error.Some? ==> Contents() == old(Contents())
      ensures error == Some(TaskConflict) ==> id in rows && rows[id] == old(rows)[id] && !TaskFree(rows[id], taskId)
    {
      if id == "" || taskId == "" {
        return Some(Invalid);
      }
      if id !in rows {
        return Some(NotFound);
      }
      if rows[id].taskId.None? || rows[id].taskId.value == "" || rows[id].taskId.value == taskId {
        rows := rows[id := rows[id].(taskId := Some(taskId), updatedAt := nowMs)];
        return None;
      }
      return Some(TaskConflict);
    }

    method ReplaceTaskIDLeased(id: string, owner: string, taskId: string, nowMs: int)
      returns (r: Result<Row, StoreError>)
      modifies this
      ensures Contents() == old(AfterReplace(Contents(), id, owner, taskId, nowMs))
      ensures r.Err? ==> Some(r.error) == old(ReplaceRefusal(Contents(), id, owner, taskId, nowMs))
      ensures r.Ok? ==>
        && id in rows && r.value == rows[id] && rows[id].taskId == Some(taskId)
        && rows == old(rows)[id := old(rows)[id].(taskId := Some(taskId), updatedAt := nowMs)]
      ensures r.Ok? <==>
        && id != "" && owner != "" && taskId != ""
        && Leases.Held(Lookup(old(leases), "submission/" + id), owner, nowMs)
        && old(Readable(Contents(), id)) && old(rows)[id].status == Running
      ensures r.Err? ==> Contents() == old(Contents())
    {
      if id == "" || owner == "" || taskId == "" {
        return Err(Invalid);
      }
      var live := RequireLiveLease(Some(LeaseIdentity("submission/" + id, owner)), nowMs);
      if !live {
        return Err(LeaseNotOwned);
      }
      var loaded := Load(id);
      if loaded.Err? {
        return loaded;
      }
      if loaded.value.status != Running {
        return Err(IllegalTransition);
      }
      rows := rows[id := rows[id].(taskId := Some(taskId), updatedAt := nowMs)];
      return Ok(rows[id]);
    }

    /** The first recorded response stays; a different one is reported as a conflict. */
    method SetInputResponse(id: string, request: string, response: string, nowMs: int)
      returns (error: Option<StoreError>)
      modifies this
      ensures Contents() == old(AfterAnswer(Contents(), id, request, response, nowMs))
      ensures error == if id == "" || request == "" || response == "" then Some(Invalid)
                       else if answers[(id, request)].response == response then None
                       else Some(AnswerConflict)
      ensures id != "" && request != "" && response != "" && (id, request) !in old(answers) ==>
        answers == old(answers)[(id, request) := Answer(response, nowMs, None)]
      ensures (id, request) in old(answers) ==> Contents() == old(Contents())
    {
      if id == "" || request == "" || |response| == 0 {
        return Some(Invalid);
      }
      if (id, request) !in answers {
        answers := answers[(id, request) := Answer(response, nowMs, None)];
        return None;
      }
      if answers[(id, request)].response == response {
        return None;
      }
      return Some(AnswerConflict);
    }

    method MarkInputResponsesSent(id: string, requests: seq<string>, nowMs: int) returns (error: Option<StoreError>)
      modifies this
      ensures Contents() == if id == "" then old(Contents())
                            else old(Contents()).(answers := MarkedAll(old(answers), id, requests, nowMs))
      ensures error.None? <==> id != "" && requests != [] && "" !in requests
      ensures rows == old(rows) && index == old(index) && leases == old(leases) && answers.Keys == old(answers).Keys
      ensures id != "" ==> forall k :: k in answers ==>
        answers[k] == if k.0 == id && k.1 in Listed(requests) && old(answers)[k].sentAt.None?
                      then old(answers)[k].(sentAt := Some(nowMs)) else old(answers)[k]
      ensures error.None? ==> Listed(requests) == requests
    {
      MarkedExactly(answers, id, requests, nowMs);
      if "" !in requests {
        ListedIsAll(requests);
      }
      if id == "" || |requests| == 0 {
        return Some(Invalid);
      }
      for i := 0 to |requests|
        invariant MarkedAll(answers, id, requests[i..], nowMs) == MarkedAll(old(answers), id, requests, nowMs)
        invariant rows == old(rows) && index == old(index) && leases == old(leases)
        invariant "" !in requests[..i]
      {
        assert requests[i..][0] == requests[i] && requests[i..][1..] == requests[i + 1..];
        if requests[i] == "" {
          return Some(Invalid);
        }
        if (id, requests[i]) in answers && answers[(id, requests[i])].sentAt.None? {
          answers := answers[(id, requests[i]) := answers[(id, requests[i])].(sentAt := Some(nowMs))];
        }
      }
      return None;
    }

    /** One sweep: the number of payloads dropped and of rows deleted. */
    method GC(nowMs: int) returns (expired: nat, deleted: nat)
      modifies this
      ensures Contents() == old(AfterGC(Contents(), nowMs))
      ensures expired == |ExpiringIds(old(rows), nowMs)|
      ensures deleted == |LapsedIds(old(rows), nowMs)|
    {
      expired := ExpirePayloads(nowMs);
      assert LapsedIds(rows, nowMs) == LapsedIds(old(rows), nowMs);
      deleted := DeleteLapsedTombstones(nowMs);
    }

    /** The bulk update, row by row: afterwards no row past its payload deadline holds a payload,
        what a retry compares and what later sweeps need is kept, every other row is as it was,
        and the count is that of the rows that changed. */
    method ExpirePayloads(nowMs: int) returns (expired: nat)
      modifies this`rows
      ensures rows == AllSwept(old(rows), nowMs)
      ensures forall id :: id in rows && PayloadLapsed(rows[id], nowMs) ==> !HoldsPayload(rows[id])
      ensures forall id :: id in rows ==> rows[id] == old(rows)[id]
                                          || (PayloadLapsed(old(rows)[id], nowMs) && OnlyPayloadDiffers(old(rows)[id], rows[id]))
      ensures expired == |ExpiringIds(old(rows), nowMs)| == |set id | id in rows && rows[id] != old(rows)[id]|
    {
      var remaining := rows.Keys;
      expired := 0;
      ghost var before, expiring := rows, ExpiringIds(rows, nowMs);
      assert expiring - remaining == {};
      while remaining != {}
        invariant remaining <= before.Keys
        invariant rows == PartlySwept(before, remaining, nowMs)
        invariant expired == |expiring - remaining|
        decreases remaining
      {
        var id :| id in remaining;
        OneMoreSwept(before, remaining, id, nowMs);
        OneMoreExpiring(before, remaining, id, nowMs);
        if PayloadLapsed(rows[id], nowMs) && HoldsPayload(rows[id]) {
          rows := rows[id := Emptied(rows[id], nowMs)];
          expired := expired + 1;
        }
        remaining := remaining - {id};
      }
      assert expiring - remaining == expiring;
      SweepMeans(before, nowMs);
    }

    method DeleteSubmission(id: string)
      requires id in rows
      modifies this
      ensures rows == old(rows) - {id} && index == old(index) - {old(rows)[id].key} && leases == old(leases)
      ensures answers == map k | k in old(answers) && k.0 != id :: old(answers)[k]
    {
      var key := rows[id].key;
      rows := rows - {id};
      answers := map k | k in answers && k.0 != id :: answers[k];
      index := index - {key};
    }

    method DeleteLapsedTombstones(nowMs: int) returns (deleted: nat)
      modifies this
      ensures Contents() == Without(old(Contents()), LapsedIds(old(rows), nowMs))
      ensures deleted == |LapsedIds(old(rows), nowMs)|
    {
      var remaining := set id | id in rows && TombstoneLapsed(rows[id], nowMs);
      ghost var lapsed := remaining;
      deleted := 0;
      NothingGone(Contents());
      while remaining != {}
        invariant remaining <= lapsed <= old(rows).Keys
        invariant Contents() == Without(old(Contents()), lapsed - remaining)
        invariant deleted == |lapsed| - |remaining|
        decreases |remaining|
      {
        var id :| id in remaining;
        OneMoreGone(old(Contents()), lapsed - remaining, id);
        assert lapsed - (remaining - {id}) == lapsed - remaining + {id};
        DeleteSubmission(id);
        remaining := remaining - {id};
        deleted := deleted + 1;
      }
      assert lapsed - remaining == lapsed;
    }
  }

  /** The table while the rows in `remaining` are still to be swept. */
  function PartlySwept(rows: map<string, Row>, remaining: set<string>, nowMs: int): map<string, Row> {
    map id | id in rows :: if id in remaining then rows[id] else Swept(rows[id], nowMs)
  }

  lemma OneMoreSwept(rows: map<string, Row>, remaining: set<string>, id: string, nowMs: int)
    requires id in remaining && remaining <= rows.Keys
    ensures PartlySwept(rows, remaining, nowMs)[id] == rows[id]
    ensures PartlySwept(rows, remaining - {id}, nowMs)
         == if PayloadLapsed(rows[id], nowMs) && HoldsPayload(rows[id])
            then PartlySwept(rows, remaining, nowMs)[id := Emptied(rows[id], nowMs)]
            else PartlySwept(rows, remaining, nowMs)
  {
  }

  lemma OneMoreExpiring(rows: map<string, Row>, remaining: set<string>, id: string, nowMs: int)
    requires id in remaining && remaining <= rows.Keys
    ensures |ExpiringIds(rows, nowMs) - (remaining - {id})|
         == |ExpiringIds(rows, nowMs) - remaining| + if PayloadLapsed(rows[id], nowMs) && HoldsPayload(rows[id]) then 1 else 0
  {
    var expiring := ExpiringIds(rows, nowMs);
    if id in expiring {
      assert expiring - (remaining - {id}) == (expiring - remaining) + {id};
    } else {
      assert expiring - (remaining - {id}) == expiring - remaining;
    }
  }

  lemma SweptRowMeans(row: Row, nowMs: int)
    ensures var after := Swept(row, nowMs);
      && (PayloadLapsed(after, nowMs) ==> !HoldsPayload(after))
      && (after == row || (PayloadLapsed(row, nowMs) && OnlyPayloadDiffers(row, after)))
      && (after != row <==> PayloadLapsed(row, nowMs) && HoldsPayload(row))
  {
  }

  lemma SweepMeans(rows: map<string, Row>, nowMs: int)
    ensures PartlySwept(rows, {}, nowMs) == AllSwept(rows, nowMs) && PartlySwept(rows, rows.Keys, nowMs) == rows
    ensures var after := AllSwept(rows, nowMs);
      && (forall id :: id in after && PayloadLapsed(after[id], nowMs) ==> !HoldsPayload(after[id]))
      && (forall id :: id in after ==> after[id] == rows[id]
                                       || (PayloadLapsed(rows[id], nowMs) && OnlyPayloadDiffers(rows[id], after[id])))
      && ExpiringIds(rows, nowMs) == set id | id in after && after[id] != rows[id]
  {
    forall id | id in rows
      ensures var after := Swept(rows[id], nowMs);
        && (PayloadLapsed(after, nowMs) ==> !HoldsPayload(after))
        && (after == rows[id] || (PayloadLapsed(rows[id], nowMs) && OnlyPayloadDiffers(rows[id], after)))
        && (after != rows[id] <==> id in ExpiringIds(rows, nowMs))
    {
      SweptRowMeans(rows[id], nowMs);
    }
  }

  method CollectHashes(tool: string, candidates: seq<Option<string>>) returns (hashes: set<string>)
    ensures hashes == RaceHashes(tool, candidates)
  {
    hashes := {};
    for i := 0 to |candidates|
      invariant hashes == RaceHashes(tool, candidates[..i])
    {
      var c := candidates[i];
      assert candidates[..i + 1] == candidates[..i] + [c];
      if c.None? || !RetryIdentity.WithinCeilings(c.value) {
        continue;
      }
      RaceHashesOfOwn(tool, candidates[..i], c.value);
      hashes := hashes + {RetryIdentity.HashInput(tool, c.value)};
    }
    assert candidates[..|candidates|] == candidates;
  }

  lemma RaceHashesOfOwn(tool: string, candidates: seq<Option<string>>, own: string)
    requires RetryIdentity.WithinCeilings(own)
    ensures RaceHashes(tool, candidates + [Some(own)])
         == RaceHashes(tool, candidates) + {RetryIdentity.HashInput(tool, own)}
  {
    var all := candidates + [Some(own)];
    assert all[|candidates|] == Some(own);
    forall h | h in RaceHashes(tool, candidates)
      ensures h in RaceHashes(tool, all)
    {
      var c :| c in candidates && c.Some? && RetryIdentity.WithinCeilings(c.value)
               && h == RetryIdentity.HashInput(tool, c.value);
      assert c in all;
    }
  }

  lemma NothingGone(db: Db)
    ensures Without(db, {}) == db
  {
    assert Without(db, {}).rows == db.rows;
    assert Without(db, {}).index == db.index;
    assert Without(db, {}).answers == db.answers;
  }

  lemma OneMoreGone(db: Db, gone: set<string>, id: string)
    requires gone <= db.rows.Keys && id in db.rows && id !in gone
    ensures Without(db, gone).rows - {id} == Without(db, gone + {id}).rows
    ensures Without(db, gone).index - {db.rows[id].key} == Without(db, gone + {id}).index
    ensures (map k | k in Without(db, gone).answers && k.0 != id :: Without(db, gone).answers[k])
         == Without(db, gone + {id}).answers
  {
    assert (set x | x in gone + {id} :: db.rows[x].key) == (set x | x in gone :: db.rows[x].key) + {db.rows[id].key};
  }
}
