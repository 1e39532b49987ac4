/** Bounded progress history (internal/store/event.go): mergeEvents and trimEvents. */
module EventHistory {
  import opened Prelude

  /** A progress event; `encoded` is its JSON text. */
  datatype Event = Event(submission: string, sequence: int, encoded: string)

  datatype EventLimits = EventLimits(eventBytes: int, maxEvents: int, eventsBytes: int)

  // ---------------------------------------------------------------- what is retained

  function Joined(events: seq<Event>): string {
    if events == [] then ""
    else
      var last := |events| - 1;
      Joined(events[..last]) + (if last > 0 then "," else "") + events[last].encoded
  }

  /** The stored plaintext: one JSON array. */
  function EncodedArray(events: seq<Event>): string {
    "[" + Joined(events) + "]"
  }

  predicate Fits(events: seq<Event>, lim: EventLimits) {
    |events| <= lim.maxEvents && (events == [] || |EncodedArray(events)| <= lim.eventsBytes)
  }

  /** The events after the oldest are dropped until both bounds hold. */
  function Trimmed(events: seq<Event>, lim: EventLimits): seq<Event> {
    if events == [] || Fits(events, lim) then events else Trimmed(events[1..], lim)
  }

  lemma {:induction false} DroppingTheOldestShrinks(events: seq<Event>)
    requires events != []
    ensures |Joined(events)| == |Joined(events[1..])| + |events[0].encoded| + if |events| > 1 then 1 else 0
  {
    var last := |events| - 1;
    if last == 0 {
    } else {
      DroppingTheOldestShrinks(events[..last]);
      assert events[1..][..last - 1] == events[..last][1..];
    }
  }

  /** A suffix of a history that fits also fits. */
  lemma {:induction false} FitsIsSuffixClosed(events: seq<Event>, k: nat, lim: EventLimits)
    requires Fits(events, lim) && k <= |events|
    ensures Fits(events[k..], lim)
    decreases k
  {
    if k == 0 {
      assert events[0..] == events;
    } else {
      DroppingTheOldestShrinks(events);
      FitsIsSuffixClosed(events[1..], k - 1, lim);
      assert events[1..][k - 1..] == events[k..];
    }
  }

  lemma {:induction false} TrimmedIsAFittingSuffix(events: seq<Event>, lim: EventLimits)
    requires lim.maxEvents >= 0
    ensures var kept := Trimmed(events, lim);
            Fits(kept, lim) && |kept| <= |events| && kept == events[|events| - |kept|..]
    decreases |events|
  {
    if events == [] || Fits(events, lim) {
    } else {
      TrimmedIsAFittingSuffix(events[1..], lim);
    }
  }

  /** What is retained is a suffix that fits both bounds, and no longer suffix does. */
  lemma {:induction false} TrimmedIsTheLongestFittingSuffix(events: seq<Event>, lim: EventLimits, k: nat)
    requires lim.maxEvents >= 0 && k <= |events|
    ensures var kept := Trimmed(events, lim);
            && Fits(kept, lim) && |kept| <= |events| && kept == events[|events| - |kept|..]
            && (Fits(events[k..], lim) ==> |events| - k <= |kept|)
    decreases |events|
  {
    TrimmedIsAFittingSuffix(events, lim);
    if events == [] || Fits(events, lim) {
    } else if k == 0 {
      assert events[0..] == events;
    } else {
      TrimmedIsTheLongestFittingSuffix(events[1..], lim, k - 1);
      assert events[1..][k - 1..] == events[k..];
    }
  }

  /** Trimming before an append changes nothing: what was dropped would be dropped anyway. */
  lemma {:induction false} TrimmingEarlyIsHarmless(events: seq<Event>, more: seq<Event>, lim: EventLimits)
    requires lim.maxEvents >= 0
    ensures Trimmed(Trimmed(events, lim) + more, lim) == Trimmed(events + more, lim)
    decreases |events|
  {
    if events == [] || Fits(events, lim) {
    } else {
      if Fits(events + more, lim) {
        PrefixFits(events, more, lim);
      }
      assert (events + more)[1..] == events[1..] + more;
      TrimmingEarlyIsHarmless(events[1..], more, lim);
    }
  }

  lemma {:induction false} PrefixFits(events: seq<Event>, more: seq<Event>, lim: EventLimits)
    requires Fits(events + more, lim)
    ensures Fits(events, lim)
    decreases |more|
  {
    if more == [] {
      assert events + more == events;
    } else {
      var last := |more| - 1;
      assert (events + more)[..|events| + last] == events + more[..last];
      PrefixFits(events, more[..last], lim);
    }
  }

  // ---------------------------------------------------------------- the loops

  method EncodedEventsSize(events: seq<Event>) returns (total: int)
    ensures total == |EncodedArray(events)|
  {
    total := 2;
    for index := 0 to |events|
      invariant total == |EncodedArray(events[..index])|
    {
      assert events[..index + 1][..index] == events[..index];
      if index > 0 {
        total := total + 1;
      }
      total := total + |events[index].encoded|;
    }
    assert events[..|events|] == events;
  }

  method TrimEvents(events: seq<Event>, lim: EventLimits) returns (kept: seq<Event>)
    requires lim.maxEvents >= 0
    ensures kept == Trimmed(events, lim)
  {
    kept := events;
    while |kept| > lim.maxEvents
      invariant Trimmed(kept, lim) == Trimmed(events, lim)
    {
      kept := kept[1..];
    }
    var size := EncodedEventsSize(kept);
    while |kept| > 0 && size > lim.eventsBytes
      invariant Trimmed(kept, lim) == Trimmed(events, lim)
      invariant |kept| <= lim.maxEvents && size == |EncodedArray(kept)|
      decreases |kept|
    {
      kept := kept[1..];
      size := EncodedEventsSize(kept);
    }
  }

  // ---------------------------------------------------------------- one append call

  datatype MergeError = WrongSubmission | BadSequence | TooLarge

  /** The check on one event against the last sequence seen. */
  function EventError(id: string, event: Event, last: int, lim: EventLimits): Option<MergeError> {
    if event.submission != id then Some(WrongSubmission)
    else if event.sequence < 1 || event.sequence <= last then Some(BadSequence)
    else if |event.encoded| > lim.eventBytes || |event.encoded| > lim.eventsBytes then Some(TooLarge)
    else None
  }

  /** A batch is accepted as a whole or not at all. */
  function BatchError(id: string, events: seq<Event>, last: int, lim: EventLimits): Option<MergeError>
    decreases events
  {
    if events == [] then None
    else
      var error := EventError(id, events[0], last, lim);
      if error.Some? then error else BatchError(id, events[1..], events[0].sequence, lim)
  }

  /** An own event within both size bounds, its sequence positive and past the one before it. */
  predicate AcceptableEvent(id: string, event: Event, previous: int, eventBytes: int, eventsBytes: int) {
    && event.submission == id && |event.encoded| <= eventBytes && |event.encoded| <= eventsBytes
    && 1 <= event.sequence && previous < event.sequence
  }

  /** The sequence an event has to be past. */
  function Previous(events: seq<Event>, last: int, i: nat): int
    requires i <= |events|
  {
    if i == 0 then last else events[i - 1].sequence
  }

  predicate Acceptable(id: string, events: seq<Event>, last: int, eventBytes: int, eventsBytes: int) {
    forall i :: 0 <= i < |events| ==> AcceptableEvent(id, events[i], Previous(events, last, i), eventBytes, eventsBytes)
  }

  lemma FirstAndRest(id: string, events: seq<Event>, last: int, eventBytes: int, eventsBytes: int)
    requires events != []
    ensures Acceptable(id, events, last, eventBytes, eventsBytes)
       <==> AcceptableEvent(id, events[0], last, eventBytes, eventsBytes)
            && Acceptable(id, events[1..], events[0].sequence, eventBytes, eventsBytes)
  {
    var rest, next := events[1..], events[0].sequence;
    assert Previous(events, last, 0) == last;
    forall i | 0 <= i < |rest|
      ensures rest[i] == events[i + 1] && Previous(rest, next, i) == Previous(events, last, i + 1)
    {
    }
    if AcceptableEvent(id, events[0], last, eventBytes, eventsBytes) && Acceptable(id, rest, next, eventBytes, eventsBytes) {
      forall i | 0 < i < |events|
        ensures AcceptableEvent(id, events[i], Previous(events, last, i), eventBytes, eventsBytes)
      {
        assert events[i] == rest[i - 1];
      }
    }
  }

  /** The checks, one event at a time, accept exactly such batches. */
  lemma {:induction false} AcceptedExactly(id: string, events: seq<Event>, last: int, lim: EventLimits)
    ensures BatchError(id, events, last, lim).None? <==> Acceptable(id, events, last, lim.eventBytes, lim.eventsBytes)
    decreases events
  {
    if events == [] {
    } else {
      FirstAndRest(id, events, last, lim.eventBytes, lim.eventsBytes);
      AcceptedExactly(id, events[1..], events[0].sequence, lim);
    }
  }

  function LastSequence(events: seq<Event>, last: int): int {
    if events == [] then last else events[|events| - 1].sequence
  }

  /** The retained events and the sequence after an append call. */
  function Merged(id: string, retained: seq<Event>, last: int, events: seq<Event>, lim: EventLimits)
    : Result<(seq<Event>, int), MergeError>
  {
    var error := BatchError(id, events, last, lim);
    if error.Some? then Err(error.value)
    else Ok((if events == [] then retained else Trimmed(retained + events, lim), LastSequence(events, last)))
  }

  /** mergeEvents trims after every single event; it ends where one trim at the end would. */
  method MergeEvents(id: string, retained: seq<Event>, last: int, events: seq<Event>, lim: EventLimits)
    returns (r: Result<(seq<Event>, int), MergeError>)
    requires lim.maxEvents >= 0
    ensures r == Merged(id, retained, last, events, lim)
  {
    var merged, previous := retained, last;
    for i := 0 to |events|
      invariant BatchError(id, events, last, lim) == BatchError(id, events[i..], previous, lim)
      invariant previous == LastSequence(events[..i], last)
      invariant merged == if i == 0 then retained else Trimmed(retained + events[..i], lim)
    {
      var event := events[i];
      assert events[i..][0] == event && events[i..][1..] == events[i + 1..];
      var error := EventError(id, event, previous, lim);
      if error.Some? {
        return Err(error.value);
      }
      TrimmingEarlyIsHarmless(retained + events[..i], [event], lim);
      assert retained + events[..i] + [event] == retained + events[..i + 1];
      assert i == 0 ==> retained + events[..i] == retained;
      merged := TrimEvents(merged + [event], lim);
      previous := event.sequence;
    }
    assert events[..|events|] == events;
    return Ok((merged, previous));
  }

  // ---------------------------------------------------------------- any series of calls

  function Flatten(batches: seq<seq<Event>>): seq<Event> {
    if batches == [] then [] else Flatten(batches[..|batches| - 1]) + batches[|batches| - 1]
  }

  /** The history after a series of append calls on a new submission; a rejected call leaves
      it as it is. `accepted` collects the batches that were taken. */
  datatype History = History(retained: seq<Event>, sequence: int, accepted: seq<seq<Event>>)

  function AfterCalls(id: string, batches: seq<seq<Event>>, lim: EventLimits): History {
    if batches == [] then History([], 0, [])
    else
      var h := AfterCalls(id, batches[..|batches| - 1], lim);
      var batch := batches[|batches| - 1];
      match Merged(id, h.retained, h.sequence, batch, lim)
      case Err(_) => h
      case Ok(m) => History(m.0, m.1, h.accepted + [batch])
  }

  predicate StrictlyIncreasing(events: seq<Event>) {
    forall i, j :: 0 <= i < j < |events| ==> events[i].sequence < events[j].sequence
  }

  lemma {:induction false} AcceptedBatchIncreases(id: string, events: seq<Event>, last: int, lim: EventLimits)
    requires BatchError(id, events, last, lim).None?
    ensures StrictlyIncreasing(events)
    ensures forall i :: 0 <= i < |events| ==> last < events[i].sequence <= LastSequence(events, last)
    decreases events
  {
    if events == [] {
    } else {
      AcceptedBatchIncreases(id, events[1..], events[0].sequence, lim);
      forall i | 0 < i < |events|
        ensures events[0].sequence < events[i].sequence
      {
        assert events[i] == events[1..][i - 1];
      }
      forall i, j | 0 < i < j < |events|
        ensures events[i].sequence < events[j].sequence
      {
        assert events[i] == events[1..][i - 1] && events[j] == events[1..][j - 1];
      }
    }
  }

  lemma IncreasingConcat(all: seq<Event>, batch: seq<Event>)
    requires StrictlyIncreasing(all) && StrictlyIncreasing(batch)
    requires forall i, j :: 0 <= i < |all| && 0 <= j < |batch| ==> all[i].sequence < batch[j].sequence
    ensures StrictlyIncreasing(all + batch)
  {
  }

  /** After any series of calls the retained events are those one final trim of everything
      ever accepted would keep, sequences strictly increase, and the stored sequence is the
      last one accepted. */
  lemma {:induction false} HistoryIsOneFinalTrim(id: string, batches: seq<seq<Event>>, lim: EventLimits)
    requires lim.maxEvents >= 0
    ensures var h := AfterCalls(id, batches, lim);
            var all := Flatten(h.accepted);
            && h.retained == Trimmed(all, lim)
            && StrictlyIncreasing(all)
            && h.sequence == LastSequence(all, 0)
            && forall i :: 0 <= i < |all| ==> 1 <= all[i].sequence <= h.sequence && all[i].submission == id
  {
    if batches == [] {
    } else {
      var before := batches[..|batches| - 1];
      var batch := batches[|batches| - 1];
      HistoryIsOneFinalTrim(id, before, lim);
      var h := AfterCalls(id, before, lim);
      if BatchError(id, batch, h.sequence, lim).None? {
        var all := Flatten(h.accepted);
        AcceptedBatchIncreases(id, batch, h.sequence, lim);
        AcceptedBatchIsOwn(id, batch, h.sequence, lim);
        TrimmingEarlyIsHarmless(all, batch, lim);
        IncreasingConcat(all, batch);
        assert (h.accepted + [batch])[..|h.accepted|] == h.accepted;
        assert batch == [] ==> all + batch == all;
      }
    }
  }

  lemma {:induction false} AcceptedBatchIsOwn(id: string, events: seq<Event>, last: int, lim: EventLimits)
    requires BatchError(id, events, last, lim).None?
    ensures forall i :: 0 <= i < |events| ==> events[i].submission == id && 1 <= events[i].sequence
    decreases events
  {
    if events == [] {
    } else {
      AcceptedBatchIsOwn(id, events[1..], events[0].sequence, lim);
      forall i | 0 < i < |events|
        ensures events[i].submission == id && 1 <= events[i].sequence
      {
        assert events[i] == events[1..][i - 1];
      }
    }
  }
}
