/** Answers to a client that awaits a submission (internal/application/await.go): cursors,
    the rendered output, and what a client sees that polls with the cursor it was given. */
module Await {
  import opened Prelude
  import opened SubmissionStates
  import opened SubmissionStore
  import opened SubmissionInvariant
  import opened EventHistory

  // ---------------------------------------------------------------- cursors

  const MAX_INT64 := 0x7FFF_FFFF_FFFF_FFFF

  predicate IsDigits(s: string) {
    s != "" && forall i :: 0 <= i < |s| ==> '0' <= s[i] <= '9'
  }

  function Decimal(s: string): nat
    requires s == "" || IsDigits(s)
  {
    if s == "" then 0 else Decimal(s[..|s| - 1]) * 10 + (s[|s| - 1] as int - '0' as int)
  }

  /** parseCursor: None when the cursor is not valid. */
  function ParseCursor(cursor: string): Option<nat> {
    if cursor == "" then Some(0)
    else if !IsDigits(cursor) || Decimal(cursor) > MAX_INT64 then None
    else Some(Decimal(cursor))
  }

  function Digit(n: nat): (c: char)
    requires n < 10
    ensures '0' <= c <= '9' && c as int - '0' as int == n
  {
    ('0' as int + n) as char
  }

  /** strconv.FormatInt in base ten. */
  function FormatInt(n: nat): (s: string)
    ensures s != ""
  {
    if n < 10 then [Digit(n)] else FormatInt(n / 10) + [Digit(n % 10)]
  }

  lemma AppendedDigit(s: string, d: nat)
    requires IsDigits(s) && d < 10
    ensures IsDigits(s + [Digit(d)]) && Decimal(s + [Digit(d)]) == Decimal(s) * 10 + d
  {
    var t := s + [Digit(d)];
    assert t[..|t| - 1] == s;
    assert t[|t| - 1] == Digit(d);
  }

  lemma {:induction false} FormattedDigits(n: nat)
    ensures IsDigits(FormatInt(n)) && Decimal(FormatInt(n)) == n
  {
    if n < 10 {
      assert Decimal([Digit(n)]) == n;
    } else {
      FormattedDigits(n / 10);
      AppendedDigit(FormatInt(n / 10), n % 10);
    }
  }

  lemma CursorParsesBack(n: nat)
    ensures n <= MAX_INT64 <==> ParseCursor(FormatInt(n)) == Some(n)
  {
    FormattedDigits(n);
  }

  /** The check on a cursor: the sequence to continue after, or None for a client error. A
      cursor beyond the submission's sequence is one. */
  function AcceptCursor(cursor: string, sequence: int): Option<nat> {
    var after := ParseCursor(cursor);
    if after.None? || after.value > sequence then None else after
  }

  /** A cursor within the sequence that was given out is accepted and means what it meant. */
  lemma GivenCursorIsAccepted(n: nat, sequence: int)
    requires n <= sequence <= MAX_INT64
    ensures AcceptCursor(FormatInt(n), sequence) == Some(n)
  {
    CursorParsesBack(n);
  }

  /** Exactly the empty cursor and the decimal texts of sequences up to the submission's are
      accepted, and an accepted cursor means the number it denotes. */
  lemma CursorsAreAcceptedExactly(cursor: string, sequence: int)
    requires 0 <= sequence <= MAX_INT64
    ensures AcceptCursor(cursor, sequence).Some? <==> cursor == "" || (IsDigits(cursor) && Decimal(cursor) <= sequence)
    ensures AcceptCursor(cursor, sequence).Some? ==>
      AcceptCursor(cursor, sequence).value == if cursor == "" then 0 else Decimal(cursor)
  {
  }

  // ---------------------------------------------------------------- how long to wait

  /** resolveWait: the wait in nanoseconds. */
  function ResolveWait(timeoutMs: int, awaitDefault: int, awaitMax: int): Option<int>
    requires 0 < awaitDefault <= awaitMax
  {
    if timeoutMs < 0 then None
    else if timeoutMs == 0 then Some(awaitDefault)
    else if timeoutMs > awaitMax / MILLISECOND then None
    else Some(timeoutMs * MILLISECOND)
  }

  /** Exactly the timeouts above the maximum are refused, and no accepted one overflows a
      64-bit duration. */
  lemma WaitIsBounded(timeoutMs: int, awaitDefault: int, awaitMax: int)
    requires 0 < awaitDefault <= awaitMax <= MAX_INT64
    ensures var wait := ResolveWait(timeoutMs, awaitDefault, awaitMax);
      && (wait.None? <==> timeoutMs < 0 || timeoutMs * MILLISECOND > awaitMax)
      && (wait.Some? ==> 0 < wait.value <= awaitMax
                         && wait.value == if timeoutMs == 0 then awaitDefault else timeoutMs * MILLISECOND)
  {
  }

  // ---------------------------------------------------------------- the output

  datatype AwaitOutput = AwaitOutput(
    status: Status, terminal: bool, cursor: string, events: seq<Event>, nextPollMs: Option<int>,
    inputRequests: Option<string>, completedAt: Option<int>, result: Option<string>, error: Option<ErrorEnvelope>)

  const EXPIRED := ErrorEnvelope("submission_expired",
    "The terminal result is no longer retained for this submission.", false)

  /** The events past a cursor. */
  function Past(events: seq<Event>, after: int): seq<Event> {
    if events == [] then []
    else
      var last := |events| - 1;
      Past(events[..last], after) + if events[last].sequence > after then [events[last]] else []
  }

  /** The largest sequence seen, starting from the cursor. */
  function LastSeen(events: seq<Event>, after: int): int {
    if events == [] then after
    else
      var last := |events| - 1;
      var seen := LastSeen(events[..last], after);
      if events[last].sequence > seen then events[last].sequence else seen
  }

  function PollGuidance(row: Row): int {
    if row.note.pollIntervalMs <= 0 || row.note.pollIntervalMs > 60_000 then 1000 else row.note.pollIntervalMs
  }

  /** buildOutput. For a row the store can hold (`id` names it), a terminal answer carries exactly one of
      result and error: a completed one its stored result, any other a valid error; a pending
      answer carries neither and tells when to poll next. */
  method BuildOutput(ghost id: string, row: Row, after: nat) returns (out: AwaitOutput)
    ensures out.status == row.status && out.terminal == Terminal(row.status)
    ensures out.events == Past(Retained(row), after)
    ensures after <= LastSeen(Retained(row), after) && out.cursor == FormatInt(LastSeen(Retained(row), after))
    ensures RowInv(id, row) && out.terminal ==>
      && (out.result.Some? <==> out.error.None?) && out.nextPollMs.None? && out.completedAt == row.completedAt
      && out.completedAt.Some? && out.result == row.result && (out.error.Some? ==> ValidError(out.error.value))
    ensures RowInv(id, row) && row.errorCode.Some? ==>
      out.error == Some(ErrorEnvelope(row.errorCode.value, row.errorMessage.value, row.errorRetryable))
    ensures RowInv(id, row) && out.terminal && row.status != Completed && row.errorCode.None? ==> out.error == Some(EXPIRED)
    ensures !out.terminal ==>
      && out.result.None? && out.error.None? && out.completedAt.None?
      && out.nextPollMs == Some(if 1 <= row.note.pollIntervalMs <= 60_000 then row.note.pollIntervalMs else 1000)
      && out.inputRequests == if row.status == InputRequired && row.inputRequests != Some("") then row.inputRequests else None
  {
    var retained := Retained(row);
    var events: seq<Event> := [];
    for i := 0 to |retained|
      invariant events == Past(retained[..i], after)
    {
      assert retained[..i + 1][..i] == retained[..i];
      if retained[i].sequence > after {
        events := events + [retained[i]];
      }
    }
    assert retained[..|retained|] == retained;
    var last: int := after;
    for i := 0 to |retained|
      invariant last == LastSeen(retained[..i], after) && after <= last
    {
      assert retained[..i + 1][..i] == retained[..i];
      if retained[i].sequence > last {
        last := retained[i].sequence;
      }
    }
    out := AwaitOutput(row.status, Terminal(row.status), FormatInt(last), events, None, None, None, None, None);
    if !Terminal(row.status) {
      out := out.(nextPollMs := Some(PollGuidance(row)));
      if row.status == InputRequired && row.inputRequests.Some? && |row.inputRequests.value| > 0 {
        out := out.(inputRequests := row.inputRequests);
      }
      return;
    }
    if row.completedAt.Some? {
      out := out.(completedAt := row.completedAt);
    }
    ExpiredIsValid();
    if row.status == Completed {
      if row.result.Some? {
        out := out.(result := row.result);
        return;
      }
      out := out.(error := Some(EXPIRED));
      return;
    }
    if row.status == Expired && row.errorCode.None? {
      out := out.(error := Some(EXPIRED));
      return;
    }
    if row.errorCode.Some? {
      var message := if row.errorMessage.Some? then row.errorMessage.value else "";
      out := out.(error := Some(ErrorEnvelope(row.errorCode.value, message, row.errorRetryable)));
    }
  }

  lemma ExpiredIsValid()
    ensures ValidError(EXPIRED)
  {
    assert "submission_expired" in ERROR_CODES;
  }

  // ---------------------------------------------------------------- one poll

  lemma {:induction false} PastIsTheTail(events: seq<Event>, after: int, k: nat)
    requires StrictlyIncreasing(events) && k <= |events|
    requires (forall i :: 0 <= i < k ==> events[i].sequence <= after)
    requires (forall i :: k <= i < |events| ==> events[i].sequence > after)
    ensures Past(events, after) == events[k..]
    ensures LastSeen(events, after) == if k == |events| then after else events[|events| - 1].sequence
  {
    if events == [] {
    } else {
      var last := |events| - 1;
      if k == |events| {
        PastIsTheTail(events[..last], after, last);
      } else {
        PastIsTheTail(events[..last], after, k);
        assert events[k..] == events[..last][k..] + [events[last]];
      }
    }
  }

  /** Where the events past a cursor begin. */
  function Position(events: seq<Event>, after: int): (k: nat)
    ensures k <= |events|
  {
    if events == [] || events[|events| - 1].sequence <= after then |events| else Position(events[..|events| - 1], after)
  }

  lemma {:induction false} PositionSplits(events: seq<Event>, after: int)
    requires StrictlyIncreasing(events)
    ensures var k := Position(events, after);
      && (forall i :: 0 <= i < k ==> events[i].sequence <= after)
      && (forall i :: k <= i < |events| ==> events[i].sequence > after)
  {
    if events == [] || events[|events| - 1].sequence <= after {
    } else {
      PositionSplits(events[..|events| - 1], after);
    }
  }

  /** A poll returns exactly the retained events past its cursor, in order, and the new cursor
      is the last of them, or the old one when there are none. */
  lemma PollReturnsTheNewEvents(events: seq<Event>, after: int)
    requires StrictlyIncreasing(events)
    ensures var batch := Past(events, after);
      && (forall e :: e in batch <==> e in events && e.sequence > after)
      && StrictlyIncreasing(batch)
      && LastSeen(events, after) == LastSequence(batch, after)
  {
    var k := Position(events, after);
    PositionSplits(events, after);
    PastIsTheTail(events, after, k);
    forall e | e in events && e.sequence > after
      ensures e in events[k..]
    {
      var i :| 0 <= i < |events| && events[i] == e;
      assert events[k..][i - k] == e;
    }
  }
}
