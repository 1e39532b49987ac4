/** A client that polls one submission and feeds each returned cursor to the next call,
    while other operations run in between. */
module Polling {
  import opened Prelude
  import opened SubmissionStates
  import opened SubmissionStore
  import opened SubmissionInvariant
  import opened SubmissionHistories
  import opened EventHistory
  import opened Await

  // ---------------------------------------------------------------- what a poll can see

  /** All events ever appended to a submission, and those its row still holds. */
  datatype View = View(appended: seq<Event>, retained: seq<Event>)

  function Dropped(v: View): int {
    |v.appended| - |v.retained|
  }

  predicate ValidView(v: View) {
    && StrictlyIncreasing(v.appended) && (forall e :: e in v.appended ==> 1 <= e.sequence)
    && 0 <= Dropped(v) && v.retained == v.appended[Dropped(v)..]
  }

  /** A later view: more may be appended, and what was dropped stays dropped. */
  predicate Later(v: View, w: View) {
    v.appended <= w.appended && Dropped(v) <= Dropped(w)
  }

  predicate ValidViews(views: seq<View>) {
    && (forall i :: 0 <= i < |views| ==> ValidView(views[i]))
    && (forall i, j :: 0 <= i <= j < |views| ==> Later(views[i], views[j]))
  }

  // ---------------------------------------------------------------- the client

  /** The cursor before poll n; the first poll has none. */
  function Cursor(views: seq<View>, n: nat): int
    requires n <= |views|
  {
    if n == 0 then 0 else LastSeen(views[n - 1].retained, Cursor(views, n - 1))
  }

  function Batch(views: seq<View>, n: nat): seq<Event>
    requires n < |views|
  {
    Past(views[n].retained, Cursor(views, n))
  }

  function Delivered(views: seq<View>, n: nat): seq<Event>
    requires n <= |views|
  {
    if n == 0 then [] else Delivered(views, n - 1) + Batch(views, n - 1)
  }

  predicate EachIncreasing(views: seq<View>) {
    forall i :: 0 <= i < |views| ==> StrictlyIncreasing(views[i].retained)
  }

  lemma RetainedIncrease(views: seq<View>)
    requires ValidViews(views)
    ensures EachIncreasing(views)
  {
    forall i | 0 <= i < |views|
      ensures StrictlyIncreasing(views[i].retained)
    {
      assert ValidView(views[i]);
    }
  }

  /** One batch: retained events past the cursor, in order, up to the new cursor. */
  lemma BatchOf(views: seq<View>, n: nat)
    requires n < |views| && StrictlyIncreasing(views[n].retained)
    ensures StrictlyIncreasing(Batch(views, n))
    ensures forall e :: e in Batch(views, n) <==> e in views[n].retained && e.sequence > Cursor(views, n)
    ensures Cursor(views, n + 1) == LastSequence(Batch(views, n), Cursor(views, n))
  {
    PollReturnsTheNewEvents(views[n].retained, Cursor(views, n));
  }

  /** Events in order, the last of them at the cursor. */
  predicate Ends(events: seq<Event>, cursor: int) {
    && StrictlyIncreasing(events) && cursor == LastSequence(events, 0)
    && forall e :: e in events ==> e.sequence <= cursor
  }

  lemma OneMoreBatch(before: seq<Event>, batch: seq<Event>, cursor: int)
    requires Ends(before, cursor) && StrictlyIncreasing(batch)
    requires forall e :: e in batch ==> cursor < e.sequence
    ensures Ends(before + batch, LastSequence(batch, cursor))
  {
    forall i, j | 0 <= i < |before| && 0 <= j < |batch|
      ensures before[i].sequence < batch[j].sequence
    {
      assert before[i] in before && batch[j] in batch;
    }
    IncreasingConcat(before, batch);
    assert batch != [] ==> batch[|batch| - 1] in batch;
    forall e | e in batch
      ensures e.sequence <= LastSequence(batch, cursor)
    {
      LastIsLargest(batch, e);
    }
  }

  lemma DeliverOne(views: seq<View>, n: nat, before: seq<Event>)
    requires n < |views| && StrictlyIncreasing(views[n].retained) && Ends(before, Cursor(views, n))
    ensures Ends(before + Batch(views, n), Cursor(views, n + 1))
  {
    BatchOf(views, n);
    OneMoreBatch(before, Batch(views, n), Cursor(views, n));
  }

  /** All batches together strictly increase, so no event is delivered twice, and every cursor
      is the last event delivered. */
  lemma {:induction false} DeliveryIncreases(views: seq<View>, n: nat)
    requires EachIncreasing(views) && n <= |views|
    ensures Ends(Delivered(views, n), Cursor(views, n))
  {
    if n == 0 {
    } else {
      DeliveryIncreases(views, n - 1);
      DeliverOne(views, n - 1, Delivered(views, n - 1));
    }
  }

  lemma LastIsLargest(events: seq<Event>, e: Event)
    requires StrictlyIncreasing(events) && e in events
    ensures e.sequence <= LastSequence(events, 0)
  {
    var i :| 0 <= i < |events| && events[i] == e;
    assert i < |events| - 1 ==> events[i].sequence < events[|events| - 1].sequence;
  }

  lemma PrefixEndsEarlier(a: seq<Event>, b: seq<Event>)
    requires a <= b && StrictlyIncreasing(b) && forall e :: e in b ==> 1 <= e.sequence
    ensures LastSequence(a, 0) <= LastSequence(b, 0)
  {
    if a != [] {
      assert a[|a| - 1] == b[|a| - 1];
      LastIsLargest(b, a[|a| - 1]);
    } else if b != [] {
      assert b[|b| - 1] in b;
    }
  }

  lemma SeenWithin(v: View, later: View, cursor: int)
    requires ValidView(v) && ValidView(later) && Later(v, later)
    requires 0 <= cursor <= LastSequence(later.appended, 0)
    ensures 0 <= LastSeen(v.retained, cursor) <= LastSequence(later.appended, 0)
  {
    PollReturnsTheNewEvents(v.retained, cursor);
    var batch := Past(v.retained, cursor);
    if batch != [] {
      var e := batch[|batch| - 1];
      assert e in batch && e in v.appended;
      LastIsLargest(v.appended, e);
      PrefixEndsEarlier(v.appended, later.appended);
    }
  }

  /** No returned cursor is beyond the sequence any later view of the submission stands at. */
  lemma {:induction false} CursorStaysWithin(views: seq<View>, n: nat, later: View)
    requires n <= |views| && ValidView(later)
    requires forall i :: 0 <= i < n ==> ValidView(views[i]) && Later(views[i], later)
    ensures 0 <= Cursor(views, n) <= LastSequence(later.appended, 0)
  {
    if n == 0 {
      assert later.appended != [] ==> later.appended[|later.appended| - 1] in later.appended;
    } else {
      CursorStaysWithin(views, n - 1, later);
      SeenWithin(views[n - 1], later, Cursor(views, n - 1));
    }
  }

  /** Poll j is the first one after the event was appended. */
  predicate FirstSeen(views: seq<View>, j: nat, e: Event)
    requires j < |views|
  {
    e in views[j].appended && (j == 0 || e !in views[j - 1].appended)
  }

  lemma NotInPrefix(a: seq<Event>, b: seq<Event>, i: nat)
    requires a <= b && i < |b| && b[i] !in a
    ensures |a| <= i
  {
  }

  lemma NewIsPast(before: View, now: View, e: Event)
    requires ValidView(now) && Later(before, now) && e in now.appended && e !in before.appended
    ensures LastSequence(before.appended, 0) < e.sequence
  {
    var i :| 0 <= i < |now.appended| && now.appended[i] == e;
    NotInPrefix(before.appended, now.appended, i);
    if before.appended != [] {
      var last := |before.appended| - 1;
      assert now.appended[last] == before.appended[last] && now.appended[last].sequence < now.appended[i].sequence;
    }
  }

  lemma ViewsBefore(views: seq<View>, j: nat)
    requires ValidViews(views) && 0 < j < |views|
    ensures ValidView(views[j]) && ValidView(views[j - 1]) && Later(views[j - 1], views[j])
    ensures forall i :: 0 <= i < j ==> ValidView(views[i]) && Later(views[i], views[j - 1])
  {
  }

  /** An event that is new at poll j lies past the cursor of that poll. */
  lemma NewEventsArePast(views: seq<View>, j: nat, e: Event)
    requires ValidViews(views) && j < |views| && FirstSeen(views, j, e)
    ensures Cursor(views, j) < e.sequence
  {
    if j == 0 {
      assert ValidView(views[0]);
    } else {
      ViewsBefore(views, j);
      CursorStaysWithin(views, j, views[j - 1]);
      NewIsPast(views[j - 1], views[j], e);
    }
  }

  lemma SamePlace(events: seq<Event>, i: nat, j: nat)
    requires StrictlyIncreasing(events) && i < |events| && j < |events| && events[i] == events[j]
    ensures i == j
  {
  }

  lemma DroppedStaysDropped(v: View, w: View, e: Event)
    requires ValidView(v) && ValidView(w) && Later(v, w) && e in v.appended && e in w.retained
    ensures e in v.retained
  {
    var i :| 0 <= i < |v.appended| && v.appended[i] == e;
    var k :| 0 <= k < |w.retained| && w.retained[k] == e;
    assert w.appended[i] == e && w.appended[Dropped(w) + k] == e;
    SamePlace(w.appended, i, Dropped(w) + k);
    assert v.retained[i - Dropped(v)] == e;
  }

  lemma {:induction false} DeliveredWasRetained(views: seq<View>, n: nat, e: Event) returns (i: nat)
    requires EachIncreasing(views) && n <= |views| && e in Delivered(views, n)
    ensures i < n && e in views[i].retained
  {
    var before, batch := Delivered(views, n - 1), Batch(views, n - 1);
    assert e in before + batch;
    if e in before {
      i := DeliveredWasRetained(views, n - 1, e);
    } else {
      BatchOf(views, n - 1);
      i := n - 1;
    }
  }

  lemma {:induction false} BatchIsDelivered(views: seq<View>, n: nat, j: nat, e: Event)
    requires j < n <= |views| && e in Batch(views, j)
    ensures e in Delivered(views, n)
  {
    if j < n - 1 {
      BatchIsDelivered(views, n - 1, j, e);
    }
  }

  lemma RetainedWasAppended(v: View, e: Event)
    requires ValidView(v) && e in v.retained
    ensures e in v.appended
  {
  }

  lemma AbsentBefore(views: seq<View>, j: nat, e: Event)
    requires ValidViews(views) && j < |views| && FirstSeen(views, j, e)
    ensures forall i :: 0 <= i < j ==> e !in views[i].appended
  {
    forall i | 0 <= i < j
      ensures e !in views[i].appended
    {
      assert Later(views[i], views[j - 1]);
      if e in views[i].appended {
        PrefixMember(views[i].appended, views[j - 1].appended, e);
      }
    }
  }

  /** An event reaches the client exactly when it is still retained at the first poll after it
      was appended: polling misses only what was trimmed or collected before that poll. */
  lemma MissesOnlyWhatWasDropped(views: seq<View>, n: nat, j: nat, e: Event)
    requires ValidViews(views) && j < n <= |views| && FirstSeen(views, j, e)
    ensures e in Delivered(views, n) <==> e in views[j].retained
  {
    RetainedIncrease(views);
    if e in views[j].retained {
      NewEventsArePast(views, j, e);
      BatchOf(views, j);
      BatchIsDelivered(views, n, j, e);
    }
    AbsentBefore(views, j, e);
    if e in Delivered(views, n) {
      var i := DeliveredWasRetained(views, n, e);
      RetainedWasAppended(views[i], e);
      assert Later(views[j], views[i]);
      DroppedStaysDropped(views[j], views[i], e);
    }
  }

  lemma PrefixMember(a: seq<Event>, b: seq<Event>, e: Event)
    requires a <= b && e in a
    ensures e in b
  {
    var i :| 0 <= i < |a| && a[i] == e;
    assert b[i] == e;
  }

  // ---------------------------------------------------------------- the store provides such views

  /** The events one operation appends to a submission. */
  function AppendedBy(db: Db, op: Op, id: string): seq<Event> {
    if op.Append? && op.id == id && AppendRefusal(db, id, op.events).None? then op.events else []
  }

  /** What a client can see of one submission before the first operation and after each. */
  function Views(db: Db, ops: seq<Op>, id: string, appended: seq<Event>): (views: seq<View>)
    ensures |views| == |ops| + 1
    decreases ops
  {
    [View(appended, if id in db.rows then Retained(db.rows[id]) else [])]
    + if ops == [] then [] else Views(Apply(db, ops[0]), ops[1..], id, appended + AppendedBy(db, ops[0], id))
  }

  /** How one operation changes the events of a row that stays. */
  predicate LegalEvents(row: Row, batch: seq<Event>, after: Row) {
    && after.sequence == LastSequence(batch, row.sequence)
    && |Retained(after)| <= |Retained(row)| + |batch|
    && Retained(after) == (Retained(row) + batch)[|Retained(row)| + |batch| - |Retained(after)|..]
  }

  lemma UnchangedEvents(row: Row, after: Row)
    requires after.events == row.events && after.sequence == row.sequence
    ensures LegalEvents(row, [], after)
  {
    assert Retained(row) + [] == Retained(row);
  }

  lemma AppendsAreLegal(db: Db, id: string, events: seq<Event>, nowMs: int)
    requires id in db.rows
    ensures LegalEvents(db.rows[id], AppendedBy(db, Append(id, events, nowMs), id), AfterAppend(db, id, events, nowMs).rows[id])
  {
    var row := db.rows[id];
    if AppendRefusal(db, id, events).None? && events != [] {
      RetentionsAreOrdered(row.limits);
      TrimmedIsAFittingSuffix(Retained(row) + events, EventBounds(row.limits));
    } else {
      UnchangedEvents(row, row);
    }
  }

  lemma MovesLeaveEvents(db: Db, op: Op, id: string)
    requires id in db.rows && !op.Append? && !op.Sweep?
    ensures id in Apply(db, op).rows
    ensures Apply(db, op).rows[id].events == db.rows[id].events
    ensures Apply(db, op).rows[id].sequence == db.rows[id].sequence
  {
  }

  lemma EventsChangeLegally(db: Db, op: Op, id: string)
    requires id in db.rows && id in Apply(db, op).rows
    ensures LegalEvents(db.rows[id], AppendedBy(db, op, id), Apply(db, op).rows[id])
  {
    var row := db.rows[id];
    if op.Sweep? {
      SweepOfOneRow(db, id, op.nowMs);
      if Swept(row, op.nowMs) == row {
        UnchangedEvents(row, row);
      }
    } else if op.Append? {
      if op.id == id {
        AppendsAreLegal(db, id, op.events, op.nowMs);
      } else {
        UnchangedEvents(row, row);
      }
    } else {
      MovesLeaveEvents(db, op, id);
      UnchangedEvents(row, Apply(db, op).rows[id]);
    }
  }

  lemma LastOfConcat(a: seq<Event>, b: seq<Event>)
    ensures LastSequence(a + b, 0) == LastSequence(b, LastSequence(a, 0))
  {
  }

  lemma AcceptedBatchFollows(db: Db, op: Op, id: string)
    requires id in db.rows
    ensures var batch := AppendedBy(db, op, id);
      StrictlyIncreasing(batch) && forall e :: e in batch ==> e.sequence >= 1 && e.sequence > db.rows[id].sequence
  {
    var batch, row := AppendedBy(db, op, id), db.rows[id];
    if batch != [] {
      AcceptedBatchIncreases(id, batch, row.sequence, EventBounds(row.limits));
      AcceptedBatchIsOwn(id, batch, row.sequence, EventBounds(row.limits));
    }
  }

  lemma SuffixOfSuffix(all: seq<Event>, retained: seq<Event>, batch: seq<Event>, kept: seq<Event>)
    requires |retained| <= |all| && retained == all[|all| - |retained|..]
    requires |kept| <= |retained| + |batch| && kept == (retained + batch)[|retained| + |batch| - |kept|..]
    ensures |kept| <= |all + batch| && kept == (all + batch)[|all + batch| - |kept|..]
  {
    assert retained + batch == (all + batch)[|all| - |retained|..];
  }

  predicate Stands(row: Row, appended: seq<Event>) {
    ValidView(View(appended, Retained(row))) && row.sequence == LastSequence(appended, 0)
  }

  lemma IncreasingThrough(appended: seq<Event>, batch: seq<Event>)
    requires StrictlyIncreasing(appended) && StrictlyIncreasing(batch)
    requires forall e :: e in batch ==> e.sequence > LastSequence(appended, 0)
    ensures StrictlyIncreasing(appended + batch)
  {
    forall i, j | 0 <= i < |appended| && 0 <= j < |batch|
      ensures appended[i].sequence < batch[j].sequence
    {
      LastIsLargest(appended, appended[i]);
      assert batch[j] in batch;
    }
    IncreasingConcat(appended, batch);
  }

  lemma OneMoreView(db: Db, op: Op, id: string, appended: seq<Event>)
    requires id in db.rows && id in Apply(db, op).rows && Stands(db.rows[id], appended)
    ensures var all, after := appended + AppendedBy(db, op, id), Apply(db, op).rows[id];
      Stands(after, all) && Later(View(appended, Retained(db.rows[id])), View(all, Retained(after)))
  {
    EventsChangeLegally(db, op, id);
    AcceptedBatchFollows(db, op, id);
    ViewFollows(db.rows[id], AppendedBy(db, op, id), Apply(db, op).rows[id], appended);
  }

  lemma ViewFollows(row: Row, batch: seq<Event>, after: Row, appended: seq<Event>)
    requires Stands(row, appended) && LegalEvents(row, batch, after) && StrictlyIncreasing(batch)
    requires forall e :: e in batch ==> e.sequence >= 1 && e.sequence > row.sequence
    ensures Stands(after, appended + batch)
    ensures Later(View(appended, Retained(row)), View(appended + batch, Retained(after)))
  {
    IncreasingThrough(appended, batch);
    SuffixOfSuffix(appended, Retained(row), batch, Retained(after));
    LastOfConcat(appended, batch);
    assert appended <= appended + batch;
  }

  lemma MoreViews(first: View, rest: seq<View>)
    requires ValidView(first) && rest != [] && ValidViews(rest) && Later(first, rest[0])
    ensures ValidViews([first] + rest)
  {
    var views := [first] + rest;
    forall i, j | 0 <= i <= j < |views|
      ensures Later(views[i], views[j])
    {
      if i == 0 && j > 0 {
        assert Later(rest[0], rest[j - 1]);
      } else if i > 0 {
        assert Later(rest[i - 1], rest[j - 1]);
      }
    }
  }

  /** What can be seen of a row that is kept is at every point a tail of all that was appended,
      and the row stands at the last sequence appended. */
  lemma {:induction false} ViewsAreValid(db: Db, ops: seq<Op>, id: string, appended: seq<Event>)
    requires Kept(db, ops, id) && id in db.rows && Stands(db.rows[id], appended)
    ensures var views := Views(db, ops, id, appended);
      && ValidViews(views)
      && views[0] == View(appended, Retained(db.rows[id]))
      && forall i :: 0 <= i <= |ops| ==>
           Trail(db, ops, id)[i].Some? && Trail(db, ops, id)[i].value.sequence == LastSequence(views[i].appended, 0)
    decreases ops
  {
    KeptLater(db, ops, id);
    if ops == [] {
    } else {
      var next := Apply(db, ops[0]);
      KeptLater(next, ops[1..], id);
      OneMoreView(db, ops[0], id, appended);
      ViewsAreValid(next, ops[1..], id, appended + AppendedBy(db, ops[0], id));
      MoreViews(View(appended, Retained(db.rows[id])), Views(next, ops[1..], id, appended + AppendedBy(db, ops[0], id)));
    }
  }

  predicate Schedule(polls: seq<nat>, last: nat) {
    && (forall k :: 0 <= k < |polls| ==> polls[k] <= last)
    && (forall k, m :: 0 <= k <= m < |polls| ==> polls[k] <= polls[m])
  }

  function PolledViews(views: seq<View>, polls: seq<nat>): seq<View>
    requires forall k :: 0 <= k < |polls| ==> polls[k] < |views|
  {
    seq(|polls|, k requires 0 <= k < |polls| => views[polls[k]])
  }

  lemma PolledViewsAreValid(views: seq<View>, polls: seq<nat>)
    requires views != [] && ValidViews(views) && Schedule(polls, |views| - 1)
    ensures ValidViews(PolledViews(views, polls))
  {
    var polled := PolledViews(views, polls);
    forall i, j | 0 <= i <= j < |polled|
      ensures Later(polled[i], polled[j])
    {
      assert polls[i] <= polls[j];
    }
  }

  lemma CursorAccepted(views: seq<View>, polls: seq<nat>, n: nat, t: nat)
    requires views != [] && ValidViews(views) && Schedule(polls, |views| - 1)
    requires n <= |polls| && t < |views| && (n > 0 ==> polls[n - 1] <= t)
    ensures 0 <= Cursor(PolledViews(views, polls), n) <= LastSequence(views[t].appended, 0)
  {
    var polled := PolledViews(views, polls);
    forall i | 0 <= i < n
      ensures ValidView(polled[i]) && Later(polled[i], views[t])
    {
      assert polls[i] <= polls[n - 1];
    }
    CursorStaysWithin(polled, n, views[t]);
  }

  /** An await that reads this row takes the cursor and continues after the same event. */
  predicate Accepted(row: Option<Row>, cursor: int) {
    && row.Some? && 0 <= cursor <= row.value.sequence
    && (row.value.sequence <= MAX_INT64 ==> AcceptCursor(FormatInt(cursor), row.value.sequence) == Some(cursor))
  }

  /** A client polls a new submission at any points of any run and feeds each cursor to the
      next call. Its batches strictly increase; the cursor a poll returned is accepted at every
      later point and parses back to the event it named; and an event is missed exactly when it
      was trimmed or collected before the first poll after its append. */
  lemma PollingClient(db: Db, ops: seq<Op>, id: string, polls: seq<nat>, n: nat)
    requires Kept(db, ops, id) && id in db.rows && Stands(db.rows[id], [])
    requires Schedule(polls, |ops|) && n <= |polls|
    ensures var trail, views := Trail(db, ops, id), PolledViews(Views(db, ops, id, []), polls);
      && Ends(Delivered(views, n), Cursor(views, n))
      && (forall t: nat :: t <= |ops| && (n > 0 ==> polls[n - 1] <= t) ==> Accepted(trail[t], Cursor(views, n)))
      && (forall j: nat, e :: j < n && FirstSeen(views, j, e) ==> (e in Delivered(views, n) <==> e in views[j].retained))
  {
    ViewsAreValid(db, ops, id, []);
    var all := Views(db, ops, id, []);
    var views := PolledViews(all, polls);
    PolledViewsAreValid(all, polls);
    RetainedIncrease(views);
    DeliveryIncreases(views, n);
    forall t: nat | t <= |ops| && (n > 0 ==> polls[n - 1] <= t)
      ensures Accepted(Trail(db, ops, id)[t], Cursor(views, n))
    {
      CursorAccepted(all, polls, n, t);
      if Trail(db, ops, id)[t].value.sequence <= MAX_INT64 {
        GivenCursorIsAccepted(Cursor(views, n), Trail(db, ops, id)[t].value.sequence);
      }
    }
    forall j: nat, e | j < n && FirstSeen(views, j, e)
      ensures e in Delivered(views, n) <==> e in views[j].retained
    {
      MissesOnlyWhatWasDropped(views, n, j, e);
    }
  }
}
