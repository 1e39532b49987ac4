/** What an await that is left alone achieves (internal/application/task_input.go): which
    responses it accepts, and that it delivers and marks exactly those that are pending. */
module InputCompletion {
  import opened Prelude
  import opened SubmissionStates
  import opened InputDelivery
  import Leases
  import Runs

  // ---------------------------------------------------------------- runs of one await alone

  /** Every step is the await's own, and its update is acknowledged. */
  predicate OnlyBy(steps: seq<Step>, p: string) {
    forall i :: 0 <= i < |steps| ==> steps[i].Act? && steps[i].p == p && steps[i].outcome == Acknowledged
  }

  ghost predicate Comes(s: System, p: string, t: System) {
    exists steps :: OnlyBy(steps, p) && Exec(s, steps) == t
  }

  lemma Stays(s: System, p: string)
    ensures Comes(s, p, s)
  {
    assert OnlyBy([], p) && Exec(s, []) == s;
  }

  lemma OneStep(s: System, p: string, r: string)
    ensures Comes(s, p, Next(s, Act(p, r, Acknowledged)))
  {
    var steps := [Act(p, r, Acknowledged)];
    Runs.AfterOne(Next, s, steps[0]);
    assert OnlyBy(steps, p) && Exec(s, steps) == Next(s, steps[0]);
  }

  lemma Further(s: System, p: string, t: System, u: System)
    requires Comes(s, p, t) && Comes(t, p, u)
    ensures Comes(s, p, u)
  {
    var a :| OnlyBy(a, p) && Exec(s, a) == t;
    var b :| OnlyBy(b, p) && Exec(t, b) == u;
    Runs.AfterConcat(Next, s, a, b);
    assert OnlyBy(a + b, p) && Exec(s, a + b) == u;
  }

  // ---------------------------------------------------------------- which responses it accepts

  /** A response the await may go on with: recorded alike, or not recorded and asked for. */
  predicate Good(s: System, responses: map<string, string>, live: set<string>, r: string) {
    && r in responses
    && (r in s.answers ==> s.answers[r].value == responses[r])
    && (r !in s.answers ==> r in live)
  }

  /** Asked for and not yet marked sent. */
  predicate Pends(s: System, live: set<string>, r: string) {
    r in live && (r in s.answers ==> !s.answers[r].sent)
  }

  function PendingOf(s: System, todo: seq<string>, live: set<string>): set<string> {
    set r | r in todo && Pends(s, live, r)
  }

  /** The table once the responses are recorded: what was there stays, the rest is added unsent. */
  ghost predicate RecordedAll(before: map<string, Stored>, after: map<string, Stored>, responses: map<string, string>, todo: seq<string>) {
    && (forall r :: r in after <==> r in before || r in todo)
    && (forall r :: r in before ==> after[r] == before[r])
    && (forall r :: r in todo && r !in before ==> r in responses && after[r] == Stored(responses[r], false))
  }

  /** All that a step of the await before its update may touch. */
  predicate OnlyRecords(s: System, p: string, t: System, at: Point) {
    && p in s.procs && t == s.(answers := t.answers, recorded := t.recorded, procs := s.procs[p := s.procs[p].(at := at)])
  }

  lemma RecordsTwice(s: System, p: string, t: System, u: System, a: Point, b: Point)
    requires OnlyRecords(s, p, t, a) && OnlyRecords(t, p, u, b)
    ensures OnlyRecords(s, p, u, b)
  {
    assert s.procs[p := t.procs[p]][p := u.procs[p]] == s.procs[p := u.procs[p]];
  }

  /** One response: it is recorded if it was not, and waits if it is asked for and unsent. */
  lemma ChecksOne(s: System, p: string, todo: seq<string>, live: set<string>, pending: set<string>) returns (t: System)
    requires p in s.procs && s.procs[p].at == Checking(todo, live, pending) && todo != []
    requires Good(s, s.procs[p].responses, live, todo[0])
    ensures Comes(s, p, t)
    ensures OnlyRecords(s, p, t, Checking(todo[1..], live, if Pends(s, live, todo[0]) then pending + {todo[0]} else pending))
    ensures RecordedAll(s.answers, t.answers, s.procs[p].responses, [todo[0]])
  {
    var r := todo[0];
    if r in s.answers && r !in live {
      t := At(s, p, Checking(todo[1..], live, pending));
      assert t == Next(s, Act(p, r, Acknowledged));
      OneStep(s, p, r);
    } else {
      var waiting := ComesToWait(s, p, todo, live, pending);
      t := GoesOn(waiting, p, todo, live, pending);
      Further(s, p, waiting, t);
      RecordsTwice(s, p, waiting, t, waiting.procs[p].at, t.procs[p].at);
    }
  }

  lemma GoesOn(s: System, p: string, todo: seq<string>, live: set<string>, pending: set<string>) returns (t: System)
    requires p in s.procs && s.procs[p].at == Waiting(todo, live, pending) && todo != [] && todo[0] in s.answers
    ensures Comes(s, p, t) && t.answers == s.answers
    ensures OnlyRecords(s, p, t, Checking(todo[1..], live, if !s.answers[todo[0]].sent then pending + {todo[0]} else pending))
  {
    t := Next(s, Act(p, "", Acknowledged));
    OneStep(s, p, "");
  }

  lemma ComesToWait(s: System, p: string, todo: seq<string>, live: set<string>, pending: set<string>) returns (t: System)
    requires p in s.procs && s.procs[p].at == Checking(todo, live, pending) && todo != []
    requires Good(s, s.procs[p].responses, live, todo[0]) && todo[0] in live
    ensures Comes(s, p, t) && OnlyRecords(s, p, t, Waiting(todo, live, pending))
    ensures RecordedAll(s.answers, t.answers, s.procs[p].responses, [todo[0]])
  {
    var r := todo[0];
    if r in s.answers {
      t := At(s, p, Waiting(todo, live, pending));
      assert t == Next(s, Act(p, r, Acknowledged));
      OneStep(s, p, r);
    } else {
      var setting := At(s, p, Setting(todo, live, pending));
      assert setting == Next(s, Act(p, r, Acknowledged));
      OneStep(s, p, r);
      t := Inserts(setting, p, todo, live, pending);
      Further(s, p, setting, t);
      RecordsTwice(s, p, setting, t, Setting(todo, live, pending), Waiting(todo, live, pending));
    }
  }

  lemma Inserts(s: System, p: string, todo: seq<string>, live: set<string>, pending: set<string>) returns (t: System)
    requires p in s.procs && s.procs[p].at == Setting(todo, live, pending) && todo != []
    requires todo[0] in s.procs[p].responses && todo[0] !in s.answers
    ensures Comes(s, p, t) && OnlyRecords(s, p, t, Waiting(todo, live, pending))
    ensures RecordedAll(s.answers, t.answers, s.procs[p].responses, [todo[0]])
  {
    t := Next(s, Act(p, "", Acknowledged));
    assert t == At(Inserted(s, todo[0], s.procs[p].responses[todo[0]]), p, Waiting(todo, live, pending));
    OneStep(s, p, "");
  }

  /** Responses that may all be gone on with are all recorded, and the pending ones are collected. */
  lemma {:induction false} ChecksAll(s: System, p: string, todo: seq<string>, live: set<string>, pending: set<string>)
    returns (t: System)
    requires p in s.procs && s.procs[p].at == Checking(todo, live, pending)
    requires forall r :: r in todo ==> Good(s, s.procs[p].responses, live, r)
    ensures Comes(s, p, t) && OnlyRecords(s, p, t, Checking([], live, pending + PendingOf(s, todo, live)))
    ensures RecordedAll(s.answers, t.answers, s.procs[p].responses, todo)
    decreases todo
  {
    if todo == [] {
      t := s;
      Stays(s, p);
      assert PendingOf(s, todo, live) == {};
      assert s.procs[p := s.procs[p]] == s.procs && pending + {} == pending;
    } else {
      var one := ChecksOne(s, p, todo, live, pending);
      var first := if Pends(s, live, todo[0]) then pending + {todo[0]} else pending;
      OthersStayGood(s, one, s.procs[p].responses, live, todo);
      t := ChecksAll(one, p, todo[1..], live, first);
      Further(s, p, one, t);
      PendingInTurn(s, one, live, todo, pending);
      RecordedInTurn(s.answers, one.answers, t.answers, s.procs[p].responses, todo);
      RecordsTwice(s, p, one, t, one.procs[p].at, t.procs[p].at);
    }
  }

  lemma OthersStayGood(s: System, one: System, responses: map<string, string>, live: set<string>, todo: seq<string>)
    requires todo != [] && RecordedAll(s.answers, one.answers, responses, [todo[0]])
    requires forall r :: r in todo ==> Good(s, responses, live, r)
    ensures forall r :: r in todo[1..] ==> Good(one, responses, live, r)
    ensures forall r :: r in todo ==> (Pends(one, live, r) <==> Pends(s, live, r))
  {
    forall r | r in todo
      ensures Good(one, responses, live, r) && (Pends(one, live, r) <==> Pends(s, live, r))
    {
      assert Good(s, responses, live, r);
    }
  }

  lemma PendingInTurn(s: System, one: System, live: set<string>, todo: seq<string>, pending: set<string>)
    requires todo != [] && forall r :: r in todo ==> (Pends(one, live, r) <==> Pends(s, live, r))
    ensures (if Pends(s, live, todo[0]) then pending + {todo[0]} else pending) + PendingOf(one, todo[1..], live)
         == pending + PendingOf(s, todo, live)
  {
    assert todo == [todo[0]] + todo[1..];
  }

  lemma RecordedInTurn(
    a: map<string, Stored>, b: map<string, Stored>, c: map<string, Stored>, responses: map<string, string>, todo: seq<string>)
    requires todo != [] && RecordedAll(a, b, responses, [todo[0]]) && RecordedAll(b, c, responses, todo[1..])
    ensures RecordedAll(a, c, responses, todo)
  {
    assert todo == [todo[0]] + todo[1..];
  }

  /** A response that may not be gone on with ends the await without an update. */
  lemma {:induction false} ChecksRefuse(s: System, p: string, todo: seq<string>, live: set<string>, pending: set<string>)
    returns (t: System)
    requires p in s.procs && s.procs[p].at == Checking(todo, live, pending)
    requires exists r :: r in todo && !Good(s, s.procs[p].responses, live, r)
    ensures Comes(s, p, t) && p in t.procs && t.procs[p].at == Done
    ensures t.updates == s.updates && t.marked == s.marked && t.acked == s.acked
    decreases todo
  {
    var responses := s.procs[p].responses;
    if Good(s, responses, live, todo[0]) {
      var one := ChecksOne(s, p, todo, live, pending);
      var bad :| bad in todo && !Good(s, responses, live, bad);
      assert bad != todo[0];
      assert !Good(one, responses, live, bad);
      assert bad in todo[1..];
      t := ChecksRefuse(one, p, todo[1..], live, if Pends(s, live, todo[0]) then pending + {todo[0]} else pending);
      Further(s, p, one, t);
    } else {
      t := At(s, p, Done);
      assert t == Next(s, Act(p, "", Acknowledged));
      OneStep(s, p, "");
    }
  }

  // ---------------------------------------------------------------- what it delivers

  function Unsent(s: System, requests: set<string>): set<string> {
    set r | r in requests && r in s.answers && !s.answers[r].sent
  }

  lemma FiltersOne(s: System, p: string, left: set<string>, kept: set<string>, r: string)
    requires p in s.procs && s.procs[p].at == Filtering(left, kept) && r in left
    ensures Comes(s, p, At(s, p, Filtering(left - {r}, if r in s.answers && !s.answers[r].sent then kept + {r} else kept)))
  {
    OneStep(s, p, r);
  }

  lemma {:induction false} FiltersAll(s: System, p: string, left: set<string>, kept: set<string>) returns (t: System)
    requires p in s.procs && s.procs[p].at == Filtering(left, kept)
    ensures Comes(s, p, t) && t == At(s, p, Filtering({}, kept + Unsent(s, left)))
    decreases left
  {
    if left == {} {
      t := s;
      Stays(s, p);
      assert Unsent(s, left) == {} && kept + {} == kept && s.procs[p := s.procs[p]] == s.procs;
    } else {
      var r :| r in left;
      var one := if r in s.answers && !s.answers[r].sent then kept + {r} else kept;
      var a := At(s, p, Filtering(left - {r}, one));
      FiltersOne(s, p, left, kept, r);
      t := FiltersAll(a, p, left - {r}, one);
      Further(s, p, a, t);
      assert one + Unsent(a, left - {r}) == kept + Unsent(s, left);
      AtTwice(s, p, Filtering(left - {r}, one), Filtering({}, one + Unsent(a, left - {r})));
    }
  }

  /** The responses in `sent` are marked, and nothing else about the table changed. */
  predicate MarkedOnly(before: map<string, Stored>, after: map<string, Stored>, sent: set<string>) {
    && after.Keys == before.Keys
    && (forall r :: r in before ==> after[r] == if r in sent then Stored(before[r].value, true) else before[r])
  }

  lemma MarksOne(s: System, p: string, left: set<string>, r: string) returns (a: System)
    requires p in s.procs && s.procs[p].at == Marking(left) && r in left
    ensures Comes(s, p, a) && p in a.procs && a.procs[p].at == Marking(left - {r})
    ensures a.updates == s.updates && a.acked == s.acked && MarkedOnly(s.answers, a.answers, {r})
  {
    a := Next(s, Act(p, r, Acknowledged));
    OneStep(s, p, r);
  }

  lemma {:induction false} MarksAll(s: System, p: string, left: set<string>) returns (t: System)
    requires p in s.procs && s.procs[p].at == Marking(left)
    ensures Comes(s, p, t) && p in t.procs && t.procs[p].at == Done && t.updates == s.updates && t.acked == s.acked
    ensures MarkedOnly(s.answers, t.answers, left)
    decreases left
  {
    if left == {} {
      t := At(s, p, Done);
      assert t == Next(s, Act(p, "", Acknowledged));
      OneStep(s, p, "");
    } else {
      var r :| r in left;
      var a := MarksOne(s, p, left, r);
      t := MarksAll(a, p, left - {r});
      Further(s, p, a, t);
    }
  }

  lemma Sends(s: System, p: string, epoch: int, kept: set<string>) returns (t: System)
    requires p in s.procs && s.procs[p].at == Sending(epoch, kept) && Leases.HeldInEpoch(s.lease, p, epoch, s.now)
    ensures Comes(s, p, t) && p in t.procs && t.procs[p].at == Marking(kept)
    ensures t.updates == s.updates[p := Body(s.procs[p].responses, kept)] && t.acked == s.acked + {p} && t.answers == s.answers
  {
    var a := SendsTheUpdate(s, p, epoch, kept);
    t := Next(a, Act(p, "", Acknowledged));
    OneStep(a, p, "");
    Further(s, p, a, t);
  }

  lemma SendsTheUpdate(s: System, p: string, epoch: int, kept: set<string>) returns (a: System)
    requires p in s.procs && s.procs[p].at == Sending(epoch, kept)
    ensures Comes(s, p, a) && p in a.procs && a.procs[p].at == Recording(epoch, kept) && a.lease == s.lease && a.now == s.now
    ensures a.updates == s.updates[p := Body(s.procs[p].responses, kept)] && a.acked == s.acked + {p} && a.answers == s.answers
  {
    a := Next(s, Act(p, "", Acknowledged));
    OneStep(s, p, "");
  }

  /** From what it found pending, an await that holds its lease sends what is still asked for and
      unsent, in one update, and marks exactly that. */
  lemma DeliversPending(s: System, p: string, live: set<string>, pending: set<string>) returns (t: System)
    requires p in s.procs && s.procs[p].at == Checking([], live, pending)
    requires s.status == Some(InputRequired) && Leases.Held(s.lease, p, s.now)
    ensures Comes(s, p, t) && p in t.procs && t.procs[p].at == Done
    ensures var kept := Unsent(s, pending * s.outstanding);
      && t.updates == (if kept == {} then s.updates else s.updates[p := Body(s.procs[p].responses, kept)])
      && t.acked == (if kept == {} then s.acked else s.acked + {p})
      && MarkedOnly(s.answers, t.answers, kept)
  {
    var kept := Unsent(s, pending * s.outstanding);
    var a := Next(s, Act(p, "", Acknowledged));
    OneStep(s, p, "");
    if pending == {} {
      assert kept == {};
      t := a;
    } else {
      assert a == At(s, p, Rechecking(pending));
      var filtered := Filters(s, p, pending);
      Further(s, p, a, filtered);
      t := DeliversKept(filtered, p, kept);
      Further(s, p, filtered, t);
    }
  }

  lemma DeliversKept(s: System, p: string, kept: set<string>) returns (t: System)
    requires p in s.procs && s.procs[p].at == Filtering({}, kept) && Leases.Held(s.lease, p, s.now)
    ensures Comes(s, p, t) && p in t.procs && t.procs[p].at == Done
    ensures t.updates == if kept == {} then s.updates else s.updates[p := Body(s.procs[p].responses, kept)]
    ensures t.acked == if kept == {} then s.acked else s.acked + {p}
    ensures MarkedOnly(s.answers, t.answers, kept)
  {
    if kept == {} {
      t := At(s, p, Done);
      assert t == Next(s, Act(p, "", Acknowledged));
      OneStep(s, p, "");
    } else {
      var marking := SendsKept(s, p, kept);
      t := MarksAll(marking, p, kept);
      Further(s, p, marking, t);
    }
  }

  lemma Filters(s: System, p: string, pending: set<string>) returns (t: System)
    requires p in s.procs && s.status == Some(InputRequired)
    ensures Comes(At(s, p, Rechecking(pending)), p, t)
    ensures t == At(s, p, Filtering({}, Unsent(s, pending * s.outstanding)))
  {
    var a := At(s, p, Rechecking(pending));
    var b := Next(a, Act(p, "", Acknowledged));
    AtTwice(s, p, Rechecking(pending), Filtering(pending * s.outstanding, {}));
    assert b == At(s, p, Filtering(pending * s.outstanding, {}));
    OneStep(a, p, "");
    t := FiltersAll(b, p, pending * s.outstanding, {});
    Further(a, p, b, t);
    assert Unsent(b, pending * s.outstanding) == Unsent(s, pending * s.outstanding);
    AtTwice(s, p, Filtering(pending * s.outstanding, {}), Filtering({}, Unsent(s, pending * s.outstanding)));
    assert {} + Unsent(s, pending * s.outstanding) == Unsent(s, pending * s.outstanding);
  }

  lemma SendsKept(s: System, p: string, kept: set<string>) returns (t: System)
    requires p in s.procs && s.procs[p].at == Filtering({}, kept) && kept != {} && Leases.Held(s.lease, p, s.now)
    ensures Comes(s, p, t) && p in t.procs && t.procs[p].at == Marking(kept)
    ensures t.updates == s.updates[p := Body(s.procs[p].responses, kept)] && t.acked == s.acked + {p} && t.answers == s.answers
  {
    var a := At(s, p, ReadingEpoch(kept));
    assert a == Next(s, Act(p, "", Acknowledged));
    OneStep(s, p, "");
    var epoch := s.lease.value.generation;
    var b := At(a, p, Sending(epoch, kept));
    assert b == Next(a, Act(p, "", Acknowledged));
    OneStep(a, p, "");
    Further(s, p, a, b);
    t := Sends(b, p, epoch, kept);
    Further(s, p, b, t);
  }

  /** Every response is recorded, the pending ones are marked, and what was there is kept. */
  ghost predicate Delivered(
    before: map<string, Stored>, after: map<string, Stored>, responses: map<string, string>, order: seq<string>, pending: set<string>)
  {
    && (forall r :: r in after <==> r in before || r in order)
    && (forall r :: r in order ==> r in responses && r in after && after[r].value == responses[r] && (r in pending ==> after[r].sent))
    && (forall r :: r in before && r !in pending ==> r in after && after[r] == before[r])
  }

  lemma RecordedAndMarked(
    s: System, b: map<string, Stored>, c: map<string, Stored>, responses: map<string, string>, order: seq<string>, live: set<string>)
    requires forall r :: r in order ==> Good(s, responses, live, r)
    requires RecordedAll(s.answers, b, responses, order) && MarkedOnly(b, c, PendingOf(s, order, live))
    ensures Delivered(s.answers, c, responses, order, PendingOf(s, order, live))
  {
    forall r | r in order
      ensures r in responses && r in c && c[r].value == responses[r] && (r in PendingOf(s, order, live) ==> c[r].sent)
    {
      assert Good(s, responses, live, r) && r in b;
    }
  }

  lemma PendingIsUnsent(s: System, b: System, responses: map<string, string>, order: seq<string>)
    requires RecordedAll(s.answers, b.answers, responses, order)
    ensures var pending := PendingOf(s, order, s.outstanding); Unsent(b, pending * s.outstanding) == pending
  {
    var pending := PendingOf(s, order, s.outstanding);
    forall r | r in pending
      ensures r in Unsent(b, pending * s.outstanding)
    {
      assert r in order && r in b.answers;
    }
  }

  /** An await that claimed its lease, is left alone and holds it, on a submission that asks for
      input, and that may go on with every response it brought: it records them all, sends those
      asked for and not yet sent in one update, marks exactly these, and ends. */
  lemma AwaitsDeliver(s: System, p: string) returns (t: System)
    requires p in s.procs && s.procs[p].at == Loading
    requires s.status == Some(InputRequired) && Leases.Held(s.lease, p, s.now)
    requires forall r :: r in s.procs[p].order ==> Good(s, s.procs[p].responses, s.outstanding, r)
    ensures Comes(s, p, t) && p in t.procs && t.procs[p].at == Done
    ensures var responses, order := s.procs[p].responses, s.procs[p].order;
      var pending := PendingOf(s, order, s.outstanding);
      && t.updates == (if pending == {} then s.updates else s.updates[p := Body(responses, pending)])
      && Delivered(s.answers, t.answers, responses, order, pending)
  {
    var responses, order, live := s.procs[p].responses, s.procs[p].order, s.outstanding;
    var pending := PendingOf(s, order, live);
    var b := RecordsAll(s, p);
    t := DeliversPending(b, p, live, pending);
    Further(s, p, b, t);
    PendingIsUnsent(s, b, responses, order);
    RecordedAndMarked(s, b.answers, t.answers, responses, order, live);
  }

  lemma RecordsAll(s: System, p: string) returns (t: System)
    requires p in s.procs && s.procs[p].at == Loading && s.status == Some(InputRequired)
    requires forall r :: r in s.procs[p].order ==> Good(s, s.procs[p].responses, s.outstanding, r)
    ensures Comes(s, p, t)
    ensures OnlyRecords(s, p, t, Checking([], s.outstanding, PendingOf(s, s.procs[p].order, s.outstanding)))
    ensures RecordedAll(s.answers, t.answers, s.procs[p].responses, s.procs[p].order)
  {
    var order, live := s.procs[p].order, s.outstanding;
    var a := Loads(s, p);
    forall r | r in order
      ensures Good(a, s.procs[p].responses, live, r)
    {
      assert Good(s, s.procs[p].responses, live, r);
    }
    t := ChecksAll(a, p, order, live, {});
    Further(s, p, a, t);
    assert {} + PendingOf(a, order, live) == PendingOf(s, order, live);
    RecordsTwice(s, p, a, t, a.procs[p].at, t.procs[p].at);
  }

  lemma Loads(s: System, p: string) returns (a: System)
    requires p in s.procs && s.procs[p].at == Loading && s.status == Some(InputRequired)
    ensures Comes(s, p, a) && a == At(s, p, Checking(s.procs[p].order, s.outstanding, {}))
  {
    a := At(s, p, Checking(s.procs[p].order, s.outstanding, {}));
    assert a == Next(s, Act(p, "", Acknowledged));
    OneStep(s, p, "");
  }

  /** When one response may not be gone on with, the await ends without an update. */
  lemma AwaitsRefuse(s: System, p: string) returns (t: System)
    requires p in s.procs && s.procs[p].at == Loading && s.status == Some(InputRequired)
    requires exists r :: r in s.procs[p].order && !Good(s, s.procs[p].responses, s.outstanding, r)
    ensures Comes(s, p, t) && p in t.procs && t.procs[p].at == Done && t.updates == s.updates && t.marked == s.marked
  {
    var a := Loads(s, p);
    var bad :| bad in s.procs[p].order && !Good(s, s.procs[p].responses, s.outstanding, bad);
    assert !Good(a, s.procs[p].responses, s.outstanding, bad);
    t := ChecksRefuse(a, p, s.procs[p].order, s.outstanding, {});
    Further(s, p, a, t);
  }
}
