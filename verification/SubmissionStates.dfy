/** The submission state machine (internal/submission/submission.go) and the lifecycle limits
    a submission is accepted under (internal/store/accepted_limits.go). */
module SubmissionStates {

  /** A status as stored; anything outside the nine known values is Unknown. */
  datatype Status =
    | Accepted | Queued | Running | InputRequired
    | Completed | Failed | Cancelled | Expired | OutcomeUnknown
    | Unknown(text: string)

  predicate Valid(s: Status) {
    !s.Unknown?
  }

  predicate Terminal(s: Status) {
    s.Completed? || s.Failed? || s.Cancelled? || s.Expired? || s.OutcomeUnknown?
  }

  predicate Allowed(from: Status, to: Status) {
    Valid(from) && Valid(to) &&
    match from
    case Accepted => to == Queued
    case Queued => to == Running
    case Running => to == InputRequired || Terminal(to)
    case InputRequired => to == Running || Terminal(to)
    case _ => false
  }

  /** A sequence of statuses, each step an allowed move. */
  predicate AllowedPath(path: seq<Status>) {
    forall i :: 0 <= i < |path| - 1 ==> Allowed(path[i], path[i + 1])
  }

  /** Every path of allowed moves from acceptance is queued second and running third, then
      alternates between running and input_required, and ends at its first terminal status. */
  lemma {:induction false} PathShape(path: seq<Status>, i: nat)
    requires AllowedPath(path) && i < |path| && path[0] == Accepted
    ensures path[i] == Accepted <==> i == 0
    ensures path[i] == Queued <==> i == 1
    ensures path[i] == Running ==> i >= 2 && i % 2 == 0
    ensures path[i] == InputRequired ==> i >= 3 && i % 2 == 1
    ensures i >= 2 && !Terminal(path[i]) ==> path[i] == if i % 2 == 0 then Running else InputRequired
    ensures Terminal(path[i]) ==> i == |path| - 1
    decreases i
  {
    if i > 0 {
      PathShape(path, i - 1);
      assert Allowed(path[i - 1], path[i]);
    }
    if i < |path| - 1 {
      assert Allowed(path[i], path[i + 1]);
    }
  }

  /** Accepted, queued, running, then running and input_required in turn, and at most at the end
      one terminal status. */
  predicate Lifecycle(path: seq<Status>) {
    forall i :: 0 <= i < |path| ==>
      || path[i] == (if i == 0 then Accepted else if i == 1 then Queued else if i % 2 == 0 then Running else InputRequired)
      || (i >= 3 && i == |path| - 1 && Terminal(path[i]))
  }

  /** The state machine lets through exactly the lifecycles. */
  lemma PathsAreTheLifecycles(path: seq<Status>)
    requires path != [] && path[0] == Accepted
    ensures AllowedPath(path) <==> Lifecycle(path)
  {
    if AllowedPath(path) {
      forall i | 0 <= i < |path|
        ensures path[i] == (if i == 0 then Accepted else if i == 1 then Queued else if i % 2 == 0 then Running else InputRequired)
                || (i >= 3 && i == |path| - 1 && Terminal(path[i]))
      {
        PathShape(path, i);
        if i > 0 {
          assert Allowed(path[i - 1], path[i]);
          PathShape(path, i - 1);
        }
      }
    }
  }

  // ---------------------------------------------------------------- accepted limits

  /** Durations are nanoseconds, as in the profile. */
  datatype Limits = Limits(
    argumentsBytes: int, argumentDepth: int, responseBytes: int, resultBytes: int, eventBytes: int,
    maxEvents: int, eventsBytes: int, awaitDefault: int, awaitMax: int,
    payloadRetention: int, tombstoneRetention: int)

  const KIB := 1024
  const MIB := 1024 * KIB
  const MILLISECOND := 1_000_000
  const SECOND := 1000 * MILLISECOND
  const DAY := 24 * 3600 * SECOND

  const DEFAULT := Limits(MIB, 32, 16 * MIB, 8 * MIB, 16 * KIB, 128, MIB, 20 * SECOND, 30 * SECOND, 7 * DAY, 30 * DAY)

  const HARD_CEILING :=
    Limits(4 * MIB, 64, 64 * MIB, 32 * MIB, 64 * KIB, 512, 4 * MIB, 30 * SECOND, 60 * SECOND, 30 * DAY, 90 * DAY)

  /** Limits.Validate. */
  predicate ValidLimits(l: Limits) {
    && 0 < l.argumentsBytes <= HARD_CEILING.argumentsBytes
    && 0 < l.argumentDepth <= HARD_CEILING.argumentDepth
    && 0 < l.responseBytes <= HARD_CEILING.responseBytes
    && 0 < l.resultBytes <= HARD_CEILING.resultBytes
    && 0 < l.eventBytes <= HARD_CEILING.eventBytes
    && 0 < l.maxEvents <= HARD_CEILING.maxEvents
    && 0 < l.eventsBytes <= HARD_CEILING.eventsBytes
    && 0 < l.awaitDefault <= HARD_CEILING.awaitDefault
    && 0 < l.awaitMax <= HARD_CEILING.awaitMax
    && l.awaitDefault <= l.awaitMax
    && 0 < l.payloadRetention <= HARD_CEILING.payloadRetention
    && 0 < l.tombstoneRetention <= HARD_CEILING.tombstoneRetention
    && l.payloadRetention <= l.tombstoneRetention
  }

  /** The policy stored with a submission; retentions are whole milliseconds. */
  datatype AcceptedLimits = AcceptedLimits(
    responseBytes: int, resultBytes: int, eventBytes: int, maxEvents: int, eventsBytes: int,
    payloadRetentionMs: int, tombstoneRetentionMs: int)

  /** Integer division that truncates toward zero. */
  function Quotient(a: int, b: int): int
    requires b > 0
  {
    if a >= 0 then a / b else -(-a / b)
  }

  function PersistedDuration(duration: int): int {
    Quotient(duration + MILLISECOND - 1, MILLISECOND) * MILLISECOND
  }

  function AcceptedFrom(l: Limits): AcceptedLimits {
    AcceptedLimits(l.responseBytes, l.resultBytes, l.eventBytes, l.maxEvents, l.eventsBytes,
                   Quotient(PersistedDuration(l.payloadRetention), MILLISECOND),
                   Quotient(PersistedDuration(l.tombstoneRetention), MILLISECOND))
  }

  /** AcceptedLimits.validate: the check every read of a row repeats. */
  predicate ValidAccepted(a: AcceptedLimits) {
    ValidLimits(DEFAULT.(responseBytes := a.responseBytes, resultBytes := a.resultBytes,
                         eventBytes := a.eventBytes, maxEvents := a.maxEvents, eventsBytes := a.eventsBytes,
                         payloadRetention := a.payloadRetentionMs * MILLISECOND,
                         tombstoneRetention := a.tombstoneRetentionMs * MILLISECOND))
  }

  /** A positive duration is stored as the least whole number of milliseconds not below it. */
  lemma PersistedIsTheLeastCover(duration: int)
    requires duration > 0
    ensures var ms := Quotient(PersistedDuration(duration), MILLISECOND);
            && ms * MILLISECOND == PersistedDuration(duration)
            && duration <= ms * MILLISECOND < duration + MILLISECOND
  {
    var ms := (duration + MILLISECOND - 1) / MILLISECOND;
    assert ms * MILLISECOND / MILLISECOND == ms;
  }

  /** The limits captured from a valid profile pass every later check: rounding up neither
      crosses a ceiling nor puts the tombstone before the payload, and nothing expires early. */
  lemma AcceptedLimitsStayValid(l: Limits)
    requires ValidLimits(l)
    ensures ValidAccepted(AcceptedFrom(l))
    ensures l.payloadRetention <= AcceptedFrom(l).payloadRetentionMs * MILLISECOND < l.payloadRetention + MILLISECOND
    ensures l.tombstoneRetention <= AcceptedFrom(l).tombstoneRetentionMs * MILLISECOND < l.tombstoneRetention + MILLISECOND
  {
    PersistedIsTheLeastCover(l.payloadRetention);
    PersistedIsTheLeastCover(l.tombstoneRetention);
    assert HARD_CEILING.payloadRetention == 30 * 24 * 3600 * 1000 * MILLISECOND;
    assert HARD_CEILING.tombstoneRetention == 90 * 24 * 3600 * 1000 * MILLISECOND;
    RoundingIsMonotone(l.payloadRetention, l.tombstoneRetention);
  }

  lemma RoundingIsMonotone(a: int, b: int)
    requires 0 < a <= b
    ensures PersistedDuration(a) <= PersistedDuration(b)
  {
    PersistedIsTheLeastCover(a);
    PersistedIsTheLeastCover(b);
  }
}
