/** Any number of awaits that deliver input responses to one submission
    (internal/application/task_input.go, internal/store/input.go). Each transaction and each
    upstream update is one step; awaits stall, lose the delivery lease and stop anywhere. */
module InputDelivery {
  import opened Prelude
  import opened SubmissionStates
  import Leases
  import Runs

  // ---------------------------------------------------------------- the system

  datatype Stored = Stored(value: string, sent: bool)

  /** Where one await stands. `live` are the request IDs outstanding when it read the row. */
  datatype Point =
    | Claiming
    | Loading
    | Checking(todo: seq<string>, live: set<string>, pending: set<string>)
    | Setting(todo: seq<string>, live: set<string>, pending: set<string>)
    | Comparing(todo: seq<string>, live: set<string>, pending: set<string>)
    | Waiting(todo: seq<string>, live: set<string>, pending: set<string>)
    | Rechecking(pending: set<string>)
    | Filtering(left: set<string>, kept: set<string>)
    | ReadingEpoch(kept: set<string>)
    | Sending(epoch: int, kept: set<string>)
    | Recording(epoch: int, kept: set<string>)
    | Marking(left: set<string>)
    | Done

  /** One await: the responses it brought, in the order it goes through them. */
  datatype Proc = Proc(responses: map<string, string>, order: seq<string>, at: Point)

  /** One submission and its delivery lease; `status` is None once the row is deleted. The last
      five fields only record what happened: the responses stored while the row was there, the
      IDs ever marked sent, the update of each await, which of them were acknowledged, and which
      passed CommitLease after that. */
  datatype System = System(
    now: int, lease: Option<Leases.LeaseRow>, status: Option<Status>, outstanding: set<string>,
    answers: map<string, Stored>, procs: map<string, Proc>,
    recorded: map<string, string>, marked: set<string>,
    updates: map<string, map<string, string>>, acked: set<string>, committed: set<string>,
    repeated: bool)

  datatype Outcome = Acknowledged | NotAcknowledged | NotSent

  datatype Step =
    | Tick(later: int)
    | Arrive(p: string, responses: map<string, string>, order: seq<string>)
    | Claim(p: string, expiresAt: int)
    | Renew(p: string, expiresAt: int)
    | Act(p: string, request: string, outcome: Outcome)
    | Quit(p: string)
    | Release(p: string)
    | OtherClaim(owner: string, expiresAt: int)
    | OtherRelease(owner: string)
    | Observe(status: Status, outstanding: set<string>)
    | Delete

  function At(s: System, p: string, at: Point): System
    requires p in s.procs
  {
    s.(procs := s.procs[p := s.procs[p].(at := at)])
  }

  predicate Present(s: System) {
    s.status.Some?
  }

  /** SetInputResponse inserts even when the row is gone; `recorded` does not follow it there. */
  function Inserted(s: System, request: string, value: string): System {
    s.(answers := s.answers[request := Stored(value, false)],
       recorded := if Present(s) then s.recorded[request := value] else s.recorded)
  }

  /** The loop over the responses of one await. */
  function Check(s: System, p: string): System
    requires p in s.procs
  {
    var responses, at := s.procs[p].responses, s.procs[p].at;
    match at
    case Loading =>
      At(s, p, if !Present(s) then Done
               else Checking(s.procs[p].order, if s.status == Some(InputRequired) then s.outstanding else {}, {}))
    case Checking(todo, live, pending) =>
      At(s, p,
         if todo == [] then (if pending == {} then Done else Rechecking(pending))
         else
           var r := todo[0];
           if r !in responses then Done
           else if r in s.answers && s.answers[r].value != responses[r] then Done
           else if r !in s.answers && r !in live then Done
           else if r !in s.answers then Setting(todo, live, pending)
           else if r !in live then Checking(todo[1..], live, pending)
           else Waiting(todo, live, pending))
    case Setting(todo, live, pending) =>
      if todo == [] || todo[0] !in responses then At(s, p, Done)
      else if todo[0] in s.answers then At(s, p, Comparing(todo, live, pending))
      else At(Inserted(s, todo[0], responses[todo[0]]), p, Waiting(todo, live, pending))
    case Comparing(todo, live, pending) =>
      At(s, p,
         if todo == [] || todo[0] !in responses || todo[0] !in s.answers then Done
         else if s.answers[todo[0]].value != responses[todo[0]] then Done
         else Waiting(todo, live, pending))
    case Waiting(todo, live, pending) =>
      At(s, p,
         if todo == [] then Done
         else if todo[0] in s.answers && !s.answers[todo[0]].sent then Checking(todo[1..], live, pending + {todo[0]})
         else Checking(todo[1..], live, pending))
    case _ => s
  }

  /** What an await puts into its update. */
  function Body(responses: map<string, string>, kept: set<string>): map<string, string> {
    map r | r in kept && r in responses :: responses[r]
  }

  /** The second reading, the update, and its record. */
  function Deliver(s: System, p: string, request: string, outcome: Outcome): System
    requires p in s.procs
  {
    var responses, at := s.procs[p].responses, s.procs[p].at;
    match at
    case Rechecking(pending) =>
      At(s, p, if s.status != Some(InputRequired) then Done else Filtering(pending * s.outstanding, {}))
    case Filtering(left, kept) =>
      if left == {} then At(s, p, if kept == {} then Done else ReadingEpoch(kept))
      else if request !in left then s
      else if request in s.answers && !s.answers[request].sent then At(s, p, Filtering(left - {request}, kept + {request}))
      else At(s, p, Filtering(left - {request}, kept))
    case ReadingEpoch(kept) =>
      At(s, p, if Leases.Held(s.lease, p, s.now) then Sending(s.lease.value.generation, kept) else Done)
    case Sending(epoch, kept) =>
      if outcome.NotSent? then At(s, p, Done)
      else
        var sent := s.(updates := s.updates[p := Body(responses, kept)],
                       repeated := s.repeated || kept * s.marked != {});
        if outcome.NotAcknowledged? then At(sent, p, Done)
        else At(sent.(acked := s.acked + {p}), p, Recording(epoch, kept))
    case Recording(epoch, kept) =>
      if Leases.HeldInEpoch(s.lease, p, epoch, s.now)
      then At(s.(committed := s.committed + {p}), p, Marking(kept))
      else At(s, p, Done)
    case Marking(left) =>
      if left == {} then At(s, p, Done)
      else if request !in left then s
      else
        At(if request in s.answers && !s.answers[request].sent
           then s.(answers := s.answers[request := s.answers[request].(sent := true)], marked := s.marked + {request})
           else s,
           p, Marking(left - {request}))
    case _ => s
  }

  predicate InCheck(at: Point) {
    at.Loading? || at.Checking? || at.Setting? || at.Comparing? || at.Waiting?
  }

  function Next(s: System, step: Step): System {
    match step
    case Tick(later) => if later >= s.now then s.(now := later) else s
    case Arrive(p, responses, order) =>
      if p in s.procs then s else s.(procs := s.procs[p := Proc(responses, order, Claiming)])
    case Claim(p, expiresAt) =>
      if p !in s.procs || !s.procs[p].at.Claiming? then s
      else if Leases.ClaimApplies(s.lease, p, s.now) then
        At(s.(lease := Leases.Claimed(s.lease, p, s.now, expiresAt)), p, Loading)
      else s
    case Renew(p, expiresAt) => s.(lease := Leases.Renewed(s.lease, p, s.now, expiresAt))
    case Act(p, request, outcome) =>
      if p !in s.procs then s
      else if InCheck(s.procs[p].at) then Check(s, p)
      else Deliver(s, p, request, outcome)
    case Quit(p) => if p in s.procs then At(s, p, Done) else s
    case Release(p) =>
      if p in s.procs && s.procs[p].at.Done? then s.(lease := Leases.Released(s.lease, p)) else s
    case OtherClaim(owner, expiresAt) =>
      if owner in s.procs then s else s.(lease := Leases.Claimed(s.lease, owner, s.now, expiresAt))
    case OtherRelease(owner) => if owner in s.procs then s else s.(lease := Leases.Released(s.lease, owner))
    case Observe(status, outstanding) =>
      if Present(s) then s.(status := Some(status), outstanding := outstanding) else s
    case Delete =>
      if Present(s) && Terminal(s.status.value) then s.(status := None, answers := map[]) else s
  }

  function Exec(s: System, steps: seq<Step>): System {
    Runs.After(Next, s, steps)
  }

  predicate Initial(s: System) {
    && s.answers == map[] && s.procs == map[] && s.recorded == map[] && s.marked == {}
    && s.updates == map[] && s.acked == {} && s.committed == {} && !s.repeated
  }

  // ---------------------------------------------------------------- the invariant

  predicate TableInv(s: System) {
    Present(s) ==>
      && s.answers.Keys == s.recorded.Keys
      && forall r :: r in s.answers ==>
           s.answers[r].value == s.recorded[r] && (s.answers[r].sent <==> r in s.marked)
  }

  /** The recorded response for a request is the one this await brings. */
  predicate Agrees(s: System, p: Proc, r: string) {
    r in p.responses && r in s.recorded && s.recorded[r] == p.responses[r]
  }

  predicate AllAgree(s: System, p: Proc, requests: set<string>) {
    forall r :: r in requests ==> Agrees(s, p, r)
  }

  predicate ProcInv(s: System, name: string, p: Proc) {
    match p.at
    case Checking(_, _, pending) => name !in s.updates && (Present(s) ==> AllAgree(s, p, pending))
    case Setting(_, _, pending) => name !in s.updates && (Present(s) ==> AllAgree(s, p, pending))
    case Comparing(_, _, pending) => name !in s.updates && (Present(s) ==> AllAgree(s, p, pending))
    case Waiting(todo, _, pending) =>
      name !in s.updates && (Present(s) ==> AllAgree(s, p, pending) && (todo != [] ==> Agrees(s, p, todo[0])))
    case Rechecking(pending) => name !in s.updates && (Present(s) ==> AllAgree(s, p, pending))
    case Filtering(left, kept) => name !in s.updates && AllAgree(s, p, left) && AllAgree(s, p, kept)
    case ReadingEpoch(kept) => name !in s.updates && AllAgree(s, p, kept)
    case Sending(_, kept) => name !in s.updates && AllAgree(s, p, kept)
    case Recording(_, kept) => name in s.acked && name in s.updates && kept <= s.updates[name].Keys
    case Marking(left) => name in s.committed && name in s.updates && left <= s.updates[name].Keys
    case Done => true
    case _ => name !in s.updates
  }

  /** Some acknowledged update, committed under its epoch, carried the response. */
  predicate Carried(s: System, r: string) {
    exists p :: p in s.committed && p in s.updates && r in s.updates[p]
  }

  predicate HistoryInv(s: System) {
    && s.committed <= s.acked <= s.updates.Keys
    && (forall p, r :: p in s.updates && r in s.updates[p] ==> r in s.recorded && s.recorded[r] == s.updates[p][r])
    && (forall r :: r in s.marked ==> Carried(s, r))
    && s.updates.Keys <= s.procs.Keys
  }

  predicate Inv(s: System) {
    && TableInv(s) && HistoryInv(s)
    && forall p :: p in s.procs ==> ProcInv(s, p, s.procs[p])
  }

  // ---------------------------------------------------------------- every step keeps it

  /** What a step leaves to the awaits that do not make it. */
  ghost predicate Spares(s: System, name: string, after: System) {
    && after.procs.Keys >= s.procs.Keys
    && (forall p :: p in s.procs && p != name ==> after.procs[p] == s.procs[p])
    && (forall r :: r in s.recorded ==> r in after.recorded && after.recorded[r] == s.recorded[r])
    && (forall p :: p != name ==> (p in after.updates <==> p in s.updates))
    && (forall p :: p in s.updates ==> p in after.updates && (p != name ==> after.updates[p] == s.updates[p]))
    && s.acked <= after.acked && s.committed <= after.committed
    && (Present(after) ==> Present(s))
  }

  lemma OthersKeepTheirs(s: System, name: string, after: System, p: string)
    requires Spares(s, name, after) && p in s.procs && p != name && ProcInv(s, p, s.procs[p])
    ensures ProcInv(after, p, after.procs[p])
  {
  }

  lemma SparedInv(s: System, name: string, after: System)
    requires Inv(s) && Spares(s, name, after) && after.procs.Keys <= s.procs.Keys + {name}
    requires TableInv(after) && HistoryInv(after)
    requires name in after.procs ==> ProcInv(after, name, after.procs[name])
    ensures Inv(after)
  {
    forall p | p in after.procs
      ensures ProcInv(after, p, after.procs[p])
    {
      if p != name {
        OthersKeepTheirs(s, name, after, p);
      }
    }
  }

  lemma MoveKeepsInv(s: System, p: string, at: Point)
    requires Inv(s) && p in s.procs
    requires ProcInv(s, p, s.procs[p].(at := at))
    ensures Inv(At(s, p, at))
  {
    var after := At(s, p, at);
    assert Spares(s, p, after) && TableInv(after) && HistoryInv(after);
    assert ProcInv(after, p, after.procs[p]);
    SparedInv(s, p, after);
  }

  lemma InsertKeepsTables(s: System, r: string, value: string)
    requires TableInv(s) && HistoryInv(s) && r !in s.answers
    ensures TableInv(Inserted(s, r, value)) && HistoryInv(Inserted(s, r, value))
    ensures forall x :: x in s.recorded ==>
      x in Inserted(s, r, value).recorded && Inserted(s, r, value).recorded[x] == s.recorded[x]
  {
    var after := Inserted(s, r, value);
    if Present(s) {
      assert r !in s.recorded;
      if r in s.marked {
        assert Carried(s, r);
      }
    }
    forall x | x in after.marked
      ensures Carried(after, x)
    {
      var p :| p in s.committed && p in s.updates && x in s.updates[p];
      assert p in after.committed && p in after.updates && x in after.updates[p];
    }
  }

  lemma SameTables(s: System, p: string, at: Point)
    requires p in s.procs && TableInv(s) && HistoryInv(s)
    ensures TableInv(At(s, p, at)) && HistoryInv(At(s, p, at))
  {
    var after := At(s, p, at);
    forall x | x in after.marked
      ensures Carried(after, x)
    {
      assert Carried(s, x);
    }
  }

  lemma InsertKeepsInv(s: System, p: string)
    requires Inv(s) && p in s.procs && s.procs[p].at.Setting?
    requires var at := s.procs[p].at; at.todo != [] && at.todo[0] in s.procs[p].responses && at.todo[0] !in s.answers
    ensures Inv(Check(s, p))
  {
    var proc := s.procs[p];
    var r, value := proc.at.todo[0], proc.responses[proc.at.todo[0]];
    var next := Waiting(proc.at.todo, proc.at.live, proc.at.pending);
    assert ProcInv(s, p, proc);
    InsertKeepsTables(s, r, value);
    var inserted := Inserted(s, r, value);
    SameTables(inserted, p, next);
    assert Check(s, p) == At(inserted, p, next);
    SparedInv(s, p, At(inserted, p, next));
  }

  lemma CheckingMoves(s: System, p: string) returns (at: Point)
    requires Inv(s) && p in s.procs && (s.procs[p].at.Checking? || s.procs[p].at.Loading?)
    ensures Check(s, p) == At(s, p, at) && ProcInv(s, p, s.procs[p].(at := at))
  {
    assert ProcInv(s, p, s.procs[p]);
    at := Check(s, p).procs[p].at;
  }

  lemma WaitingMoves(s: System, p: string) returns (at: Point)
    requires Inv(s) && p in s.procs && (s.procs[p].at.Comparing? || s.procs[p].at.Waiting?)
    ensures Check(s, p) == At(s, p, at) && ProcInv(s, p, s.procs[p].(at := at))
  {
    assert ProcInv(s, p, s.procs[p]);
    at := Check(s, p).procs[p].at;
  }

  lemma SettingMoves(s: System, p: string)
    requires Inv(s) && p in s.procs && s.procs[p].at.Setting?
    ensures Inv(Check(s, p))
  {
    var proc := s.procs[p];
    assert ProcInv(s, p, proc);
    if proc.at.todo == [] || proc.at.todo[0] !in proc.responses {
      MoveKeepsInv(s, p, Done);
    } else if proc.at.todo[0] in s.answers {
      MoveKeepsInv(s, p, Comparing(proc.at.todo, proc.at.live, proc.at.pending));
    } else {
      InsertKeepsInv(s, p);
    }
  }

  lemma CheckKeepsInv(s: System, p: string)
    requires Inv(s) && p in s.procs && InCheck(s.procs[p].at)
    ensures Inv(Check(s, p))
  {
    if s.procs[p].at.Setting? {
      SettingMoves(s, p);
    } else if s.procs[p].at.Checking? || s.procs[p].at.Loading? {
      var at := CheckingMoves(s, p);
      MoveKeepsInv(s, p, at);
    } else {
      var at := WaitingMoves(s, p);
      MoveKeepsInv(s, p, at);
    }
  }

  function Sent(s: System, p: string, kept: set<string>): System
    requires p in s.procs
  {
    s.(updates := s.updates[p := Body(s.procs[p].responses, kept)], repeated := s.repeated || kept * s.marked != {})
  }

  lemma SendKeepsTables(s: System, p: string, kept: set<string>)
    requires TableInv(s) && HistoryInv(s) && p in s.procs && p !in s.updates && AllAgree(s, s.procs[p], kept)
    ensures TableInv(Sent(s, p, kept)) && HistoryInv(Sent(s, p, kept))
    ensures Sent(s, p, kept).updates[p].Keys == kept
  {
    var after := Sent(s, p, kept);
    forall x | x in after.marked
      ensures Carried(after, x)
    {
      var o :| o in s.committed && o in s.updates && x in s.updates[o];
      assert o in after.committed && o in after.updates && x in after.updates[o];
    }
  }

  lemma AckKeepsTables(s: System, p: string)
    requires TableInv(s) && HistoryInv(s) && p in s.updates
    ensures var acked := s.(acked := s.acked + {p}); TableInv(acked) && HistoryInv(acked)
  {
    var acked := s.(acked := s.acked + {p});
    forall x | x in acked.marked
      ensures Carried(acked, x)
    {
      assert Carried(s, x);
    }
  }

  lemma SentSpares(s: System, p: string, kept: set<string>, acked: set<string>, at: Point)
    requires p in s.procs && p !in s.updates && s.acked <= acked
    ensures Spares(s, p, At(Sent(s, p, kept).(acked := acked), p, at))
  {
  }

  lemma SendKeepsInv(s: System, p: string, outcome: Outcome)
    requires Inv(s) && p in s.procs && s.procs[p].at.Sending? && !outcome.NotSent?
    ensures Inv(Deliver(s, p, "", outcome))
  {
    var kept, epoch := s.procs[p].at.kept, s.procs[p].at.epoch;
    assert ProcInv(s, p, s.procs[p]);
    SendKeepsTables(s, p, kept);
    var sent := Sent(s, p, kept);
    if outcome.NotAcknowledged? {
      SameTables(sent, p, Done);
      SentSpares(s, p, kept, s.acked, Done);
      assert sent == sent.(acked := s.acked);
      SparedInv(s, p, At(sent, p, Done));
    } else {
      var acked, next := sent.(acked := s.acked + {p}), Recording(epoch, kept);
      AckKeepsTables(sent, p);
      SameTables(acked, p, next);
      SentSpares(s, p, kept, s.acked + {p}, next);
      SparedInv(s, p, At(acked, p, next));
    }
  }

  lemma CommitKeepsInv(s: System, p: string)
    requires Inv(s) && p in s.procs && s.procs[p].at.Recording?
    ensures Inv(At(s.(committed := s.committed + {p}), p, Marking(s.procs[p].at.kept)))
  {
    assert ProcInv(s, p, s.procs[p]);
    var committed := s.(committed := s.committed + {p});
    assert HistoryInv(committed) by {
      forall x | x in s.marked
        ensures Carried(committed, x)
      {
        var o :| o in s.committed && o in s.updates && x in s.updates[o];
        assert o in committed.committed;
      }
    }
    var next := Marking(s.procs[p].at.kept);
    SameTables(committed, p, next);
    SparedInv(s, p, At(committed, p, next));
  }

  function MarkedSent(s: System, r: string): System
    requires r in s.answers
  {
    s.(answers := s.answers[r := s.answers[r].(sent := true)], marked := s.marked + {r})
  }

  lemma MarkKeepsTables(s: System, r: string)
    requires TableInv(s) && HistoryInv(s) && r in s.answers && Carried(s, r)
    ensures TableInv(MarkedSent(s, r)) && HistoryInv(MarkedSent(s, r))
  {
    var marked := MarkedSent(s, r);
    forall x | x in marked.marked
      ensures Carried(marked, x)
    {
      assert Carried(s, x);
    }
    assert marked.answers.Keys == s.answers.Keys;
  }

  lemma MarkKeepsInv(s: System, p: string, r: string)
    requires Inv(s) && p in s.procs && s.procs[p].at.Marking? && r in s.procs[p].at.left
    requires r in s.answers && !s.answers[r].sent
    ensures Inv(Deliver(s, p, r, Acknowledged))
  {
    assert ProcInv(s, p, s.procs[p]);
    assert p in s.committed && p in s.updates && r in s.updates[p];
    MarkKeepsTables(s, r);
    var next := Marking(s.procs[p].at.left - {r});
    SameTables(MarkedSent(s, r), p, next);
    SparedInv(s, p, At(MarkedSent(s, r), p, next));
  }

  lemma RecheckKeepsInv(s: System, p: string)
    requires Inv(s) && p in s.procs && s.procs[p].at.Rechecking?
    ensures Inv(Deliver(s, p, "", NotSent))
  {
    var pending := s.procs[p].at.pending;
    assert ProcInv(s, p, s.procs[p]);
    if s.status != Some(InputRequired) {
      MoveKeepsInv(s, p, Done);
    } else {
      assert AllAgree(s, s.procs[p], pending);
      MoveKeepsInv(s, p, Filtering(pending * s.outstanding, {}));
    }
  }

  lemma FilterKeepsInv(s: System, p: string, r: string)
    requires Inv(s) && p in s.procs && s.procs[p].at.Filtering?
    ensures Inv(Deliver(s, p, r, NotSent))
  {
    var left, kept := s.procs[p].at.left, s.procs[p].at.kept;
    assert ProcInv(s, p, s.procs[p]);
    if left == {} {
      MoveKeepsInv(s, p, if kept == {} then Done else ReadingEpoch(kept));
    } else if r in left {
      MoveKeepsInv(s, p, if r in s.answers && !s.answers[r].sent then Filtering(left - {r}, kept + {r})
                         else Filtering(left - {r}, kept));
    }
  }

  lemma EpochKeepsInv(s: System, p: string)
    requires Inv(s) && p in s.procs && s.procs[p].at.ReadingEpoch?
    ensures Inv(Deliver(s, p, "", NotSent))
  {
    assert ProcInv(s, p, s.procs[p]);
    MoveKeepsInv(s, p, Deliver(s, p, "", NotSent).procs[p].at);
  }

  lemma DeliverKeepsInv(s: System, p: string, r: string, outcome: Outcome)
    requires Inv(s) && p in s.procs && !InCheck(s.procs[p].at)
    ensures Inv(Deliver(s, p, r, outcome))
  {
    var proc := s.procs[p];
    assert ProcInv(s, p, proc);
    match proc.at {
      case Rechecking(_) => RecheckKeepsInv(s, p);
      case Filtering(_, _) => FilterKeepsInv(s, p, r);
      case ReadingEpoch(_) => EpochKeepsInv(s, p);
      case Sending(_, _) =>
        if outcome.NotSent? {
          MoveKeepsInv(s, p, Done);
        } else {
          SendKeepsInv(s, p, outcome);
        }
      case Recording(epoch, kept) =>
        if Leases.HeldInEpoch(s.lease, p, epoch, s.now) {
          CommitKeepsInv(s, p);
        } else {
          MoveKeepsInv(s, p, Done);
        }
      case Marking(left) =>
        if r in left && r in s.answers && !s.answers[r].sent {
          MarkKeepsInv(s, p, r);
        } else if left == {} {
          MoveKeepsInv(s, p, Done);
        } else if r in left {
          MoveKeepsInv(s, p, Marking(left - {r}));
        }
      case _ =>
    }
  }

  /** A step that touches neither the tables nor what awaits know. */
  lemma SurroundingsKeepInv(s: System, after: System)
    requires Inv(s)
    requires after == s.(now := after.now, lease := after.lease, outstanding := after.outstanding,
                         status := after.status, answers := after.answers)
    requires Present(after) ==> Present(s) && after.answers == s.answers
    ensures Inv(after)
  {
    assert HistoryInv(after) by {
      forall x | x in after.marked
        ensures Carried(after, x)
      {
        assert Carried(s, x);
      }
    }
    forall p | p in after.procs
      ensures ProcInv(after, p, after.procs[p])
    {
      assert ProcInv(s, p, s.procs[p]);
    }
  }

  lemma ArriveKeepsInv(s: System, p: string, proc: Proc)
    requires Inv(s) && p !in s.procs && proc.at == Claiming
    ensures Inv(s.(procs := s.procs[p := proc]))
  {
    var after := s.(procs := s.procs[p := proc]);
    assert HistoryInv(after) by {
      forall x | x in after.marked
        ensures Carried(after, x)
      {
        assert Carried(s, x);
      }
    }
    SparedInv(s, p, after);
  }

  lemma ClaimKeepsInv(s: System, p: string, expiresAt: int)
    requires Inv(s) && p in s.procs && s.procs[p].at.Claiming? && Leases.ClaimApplies(s.lease, p, s.now)
    ensures Inv(Next(s, Claim(p, expiresAt)))
  {
    assert ProcInv(s, p, s.procs[p]);
    var claimed := s.(lease := Leases.Claimed(s.lease, p, s.now, expiresAt));
    SurroundingsKeepInv(s, claimed);
    MoveKeepsInv(claimed, p, Loading);
  }

  lemma ActKeepsInv(s: System, p: string, request: string, outcome: Outcome)
    requires Inv(s)
    ensures Inv(Next(s, Act(p, request, outcome)))
  {
    if p in s.procs {
      if InCheck(s.procs[p].at) {
        CheckKeepsInv(s, p);
      } else {
        DeliverKeepsInv(s, p, request, outcome);
      }
    }
  }

  lemma StepKeepsInv(s: System, step: Step)
    requires Inv(s)
    ensures Inv(Next(s, step))
  {
    if step.Act? {
      ActKeepsInv(s, step.p, step.request, step.outcome);
    } else if step.Arrive? {
      if step.p !in s.procs {
        ArriveKeepsInv(s, step.p, Proc(step.responses, step.order, Claiming));
      }
    } else if step.Claim? {
      if step.p in s.procs && s.procs[step.p].at.Claiming? && Leases.ClaimApplies(s.lease, step.p, s.now) {
        ClaimKeepsInv(s, step.p, step.expiresAt);
      }
    } else if step.Quit? {
      if step.p in s.procs {
        MoveKeepsInv(s, step.p, Done);
      }
    } else {
      SurroundingsKeepInv(s, Next(s, step));
    }
  }

  lemma {:induction false} RunKeepsInv(s: System, steps: seq<Step>)
    requires Inv(s)
    ensures Inv(Exec(s, steps))
    decreases steps
  {
    if steps == [] {
    } else {
      StepKeepsInv(s, steps[0]);
      RunKeepsInv(Next(s, steps[0]), steps[1..]);
    }
  }

  // ---------------------------------------------------------------- what holds in every run

  /** Whatever awaits race, stall or crash: every update ever sent carries the same value for
      a request ID, the one recorded first; and a response is marked sent only after an update
      that carried it was acknowledged and its sender still held its delivery epoch. */
  lemma UpdatesAgree(s: System, steps: seq<Step>)
    requires Initial(s)
    ensures var after := Exec(s, steps);
      && (forall p, q, r :: p in after.updates && q in after.updates && r in after.updates[p] && r in after.updates[q] ==>
            after.updates[p][r] == after.updates[q][r])
      && (forall r :: r in after.marked ==>
            exists p :: p in after.committed && p in after.acked && p in after.updates && r in after.updates[p])
      && (Present(after) ==> forall r :: r in after.answers && after.answers[r].sent ==> r in after.marked)
  {
    RunKeepsInv(s, steps);
    var after := Exec(s, steps);
    forall p, q, r | p in after.updates && q in after.updates && r in after.updates[p] && r in after.updates[q]
      ensures after.updates[p][r] == after.updates[q][r]
    {
      assert after.updates[p][r] == after.recorded[r] && after.updates[q][r] == after.recorded[r];
    }
    forall r | r in after.marked
      ensures exists p :: p in after.committed && p in after.acked && p in after.updates && r in after.updates[p]
    {
      var p :| p in after.committed && p in after.updates && r in after.updates[p];
      assert p in after.acked;
    }
  }

  /** The first response of a request stays, and once it is marked it stays marked. */
  predicate SameResponse(s: System, after: System, r: string) {
    && r in s.answers && r in after.answers && after.answers[r].value == s.answers[r].value
    && (s.answers[r].sent ==> after.answers[r].sent)
  }

  lemma CheckKeepsResponses(s: System, p: string, r: string)
    requires p in s.procs && r in s.answers
    ensures SameResponse(s, Check(s, p), r)
  {
  }

  lemma DeliverKeepsResponses(s: System, p: string, request: string, outcome: Outcome, r: string)
    requires p in s.procs && r in s.answers
    ensures SameResponse(s, Deliver(s, p, request, outcome), r)
  {
  }

  lemma StepKeepsResponses(s: System, step: Step, r: string)
    requires r in s.answers && (step.Delete? ==> !Present(s) || Present(Next(s, step)))
    ensures SameResponse(s, Next(s, step), r)
  {
    if step.Act? && step.p in s.procs {
      if InCheck(s.procs[step.p].at) {
        CheckKeepsResponses(s, step.p, r);
      } else {
        DeliverKeepsResponses(s, step.p, step.request, step.outcome, r);
      }
    }
  }

  lemma DeletionIsFinal(s: System, step: Step)
    requires !Present(s)
    ensures !Present(Next(s, step))
  {
  }

  lemma {:induction false} DeletionIsFinalThroughout(s: System, steps: seq<Step>)
    requires !Present(s)
    ensures !Present(Exec(s, steps))
    decreases steps
  {
    if steps == [] {
    } else {
      DeletionIsFinal(s, steps[0]);
      DeletionIsFinalThroughout(Next(s, steps[0]), steps[1..]);
    }
  }

  /** First write wins: whatever other awaits bring for the same request, in any run, the first
      response recorded stays until the row is deleted. */
  lemma {:induction false} FirstResponseStays(s: System, steps: seq<Step>, r: string)
    requires r in s.answers && Present(Exec(s, steps))
    ensures SameResponse(s, Exec(s, steps), r)
    decreases steps
  {
    if steps == [] {
    } else {
      var next := Next(s, steps[0]);
      if !Present(next) {
        DeletionIsFinalThroughout(next, steps[1..]);
      } else {
        StepKeepsResponses(s, steps[0], r);
        FirstResponseStays(next, steps[1..], r);
      }
    }
  }

  // ---------------------------------------------------------------- sent again after it was marked

  /** An await makes a step only while the delivery lease row still names it. */
  predicate InSection(s: System, step: Step) {
    step.Act? && step.p in s.procs ==> Leases.Owns(s.lease, step.p)
  }

  predicate SectionsDoNotOverlap(s: System, steps: seq<Step>)
    decreases steps
  {
    steps == [] || (InSection(s, steps[0]) && SectionsDoNotOverlap(Next(s, steps[0]), steps[1..]))
  }

  predicate Unmarked(s: System, requests: set<string>) {
    forall r :: r in requests ==> r !in s.marked
  }

  predicate SectionInv(s: System, at: Point) {
    match at
    case Filtering(left, kept) => Unmarked(s, kept) && (Present(s) || forall r :: r in left ==> r !in s.answers)
    case ReadingEpoch(kept) => Unmarked(s, kept)
    case Sending(_, kept) => Unmarked(s, kept)
    case _ => true
  }

  predicate RepeatInv(s: System) {
    !s.repeated && forall p :: p in s.procs && Leases.Owns(s.lease, p) ==> SectionInv(s, s.procs[p].at)
  }

  lemma CheckKeepsRepeatInv(s: System, p: string)
    requires RepeatInv(s) && p in s.procs && Leases.Owns(s.lease, p) && InCheck(s.procs[p].at)
    ensures RepeatInv(Check(s, p))
  {
  }

  lemma FilterKeepsSection(s: System, p: string, r: string, left: set<string>, kept: set<string>)
    requires TableInv(s) && p in s.procs && s.procs[p].at == Filtering(left, kept) && SectionInv(s, s.procs[p].at)
    ensures SectionInv(s, Deliver(s, p, r, NotSent).procs[p].at)
    ensures Deliver(s, p, r, NotSent) == At(s, p, Deliver(s, p, r, NotSent).procs[p].at)
  {
    assert s.procs == s.procs[p := s.procs[p]];
    if r in left && r in s.answers && !s.answers[r].sent {
      assert Present(s) && r !in s.marked;
    }
  }

  lemma SendKeepsSection(s: System, p: string, outcome: Outcome)
    requires !s.repeated && p in s.procs && s.procs[p].at.Sending? && SectionInv(s, s.procs[p].at)
    ensures var after := Deliver(s, p, "", outcome);
      !after.repeated && after.lease == s.lease && p in after.procs && SectionInv(after, after.procs[p].at)
  {
    assert s.procs[p].at.kept * s.marked == {};
  }

  lemma RestKeepsSection(s: System, p: string, r: string)
    requires !s.repeated && p in s.procs && SectionInv(s, s.procs[p].at)
    requires !s.procs[p].at.Filtering? && !s.procs[p].at.Sending?
    ensures var after := Deliver(s, p, r, NotSent);
      !after.repeated && after.lease == s.lease && p in after.procs && SectionInv(after, after.procs[p].at)
  {
  }

  lemma DeliverKeepsSection(s: System, p: string, r: string, outcome: Outcome)
    requires TableInv(s) && !s.repeated && p in s.procs && SectionInv(s, s.procs[p].at)
    ensures var after := Deliver(s, p, r, outcome);
      !after.repeated && after.lease == s.lease && p in after.procs && SectionInv(after, after.procs[p].at)
  {
    var at := s.procs[p].at;
    if at.Sending? {
      SendKeepsSection(s, p, outcome);
    } else if at.Filtering? {
      FilterKeepsSection(s, p, r, at.left, at.kept);
    } else {
      RestKeepsSection(s, p, r);
    }
  }

  lemma DeliverKeepsRepeatInv(s: System, p: string, r: string, outcome: Outcome)
    requires TableInv(s) && RepeatInv(s) && p in s.procs && Leases.Owns(s.lease, p) && !InCheck(s.procs[p].at)
    ensures RepeatInv(Deliver(s, p, r, outcome))
  {
    DeliverKeepsSection(s, p, r, outcome);
  }

  lemma StepKeepsRepeatInv(s: System, step: Step)
    requires TableInv(s) && RepeatInv(s) && InSection(s, step)
    ensures RepeatInv(Next(s, step))
  {
    match step {
      case Act(p, request, outcome) =>
        if p in s.procs {
          if InCheck(s.procs[p].at) {
            CheckKeepsRepeatInv(s, p);
          } else {
            DeliverKeepsRepeatInv(s, p, request, outcome);
          }
        }
      case _ =>
    }
  }

  lemma {:induction false} RunKeepsRepeatInv(s: System, steps: seq<Step>)
    requires Inv(s) && RepeatInv(s) && SectionsDoNotOverlap(s, steps)
    ensures RepeatInv(Exec(s, steps))
    decreases steps
  {
    if steps == [] {
    } else {
      StepKeepsInv(s, steps[0]);
      StepKeepsRepeatInv(s, steps[0]);
      RunKeepsRepeatInv(Next(s, steps[0]), steps[1..]);
    }
  }

  /** While delivery sections do not overlap, a response once marked sent is in no later update. */
  lemma MarkedIsNotSentAgain(s: System, steps: seq<Step>)
    requires Initial(s) && SectionsDoNotOverlap(s, steps)
    ensures !Exec(s, steps).repeated
  {
    RunKeepsRepeatInv(s, steps);
  }

  // ---------------------------------------------------------------- exactly when that happens

  /** The step in which await q marks the response. */
  predicate Marks(s: System, step: Step, q: string, r: string) {
    && step.Act? && step.p == q && step.request == r && q in s.procs
    && s.procs[q].at.Marking? && r in s.procs[q].at.left && r in s.answers && !s.answers[r].sent
  }

  /** The step in which await p reads the response as pending for the last time. */
  predicate ReadsPending(s: System, step: Step, p: string, r: string) {
    && step.Act? && step.p == p && step.request == r && p in s.procs
    && s.procs[p].at.Filtering? && r in s.procs[p].at.left && r in s.answers && !s.answers[r].sent
  }

  /** Await p is about to send the response. */
  predicate AboutToSend(s: System, p: string, r: string) {
    p in s.procs && s.procs[p].at.Sending? && r in s.procs[p].at.kept
  }

  ghost predicate MarkedBy(s: System, steps: seq<Step>, q: string, r: string)
    decreases steps
  {
    steps != [] && (Marks(s, steps[0], q, r) || MarkedBy(Next(s, steps[0]), steps[1..], q, r))
  }

  ghost predicate MarkedIn(s: System, steps: seq<Step>, r: string) {
    exists q :: MarkedBy(s, steps, q, r)
  }

  lemma CheckMarksNothing(s: System, p: string)
    requires p in s.procs
    ensures Check(s, p).marked == s.marked
  {
  }

  lemma DeliverMarks(s: System, p: string, request: string, outcome: Outcome, r: string)
    requires p in s.procs && s.procs[p].at.Marking?
    ensures r in Deliver(s, p, request, outcome).marked <==> r in s.marked || Marks(s, Act(p, request, outcome), p, r)
  {
  }

  lemma OnlyMarkingMarks(s: System, p: string, request: string, outcome: Outcome)
    requires p in s.procs && !s.procs[p].at.Marking?
    ensures Deliver(s, p, request, outcome).marked == s.marked
  {
  }

  lemma OneStepMarks(s: System, step: Step, r: string)
    ensures r in Next(s, step).marked <==> r in s.marked || (step.Act? && Marks(s, step, step.p, r))
  {
    if step.Act? && step.p in s.procs {
      if InCheck(s.procs[step.p].at) {
        CheckMarksNothing(s, step.p);
      } else if !s.procs[step.p].at.Marking? {
        OnlyMarkingMarks(s, step.p, step.request, step.outcome);
      } else {
        DeliverMarks(s, step.p, step.request, step.outcome, r);
      }
    }
  }

  lemma MarkedFirstOrLater(s: System, steps: seq<Step>, r: string)
    requires steps != []
    ensures MarkedIn(s, steps, r)
       <==> (steps[0].Act? && Marks(s, steps[0], steps[0].p, r)) || MarkedIn(Next(s, steps[0]), steps[1..], r)
  {
    var next, rest := Next(s, steps[0]), steps[1..];
    if MarkedIn(s, steps, r) {
      var q :| MarkedBy(s, steps, q, r);
      assert Marks(s, steps[0], q, r) || MarkedBy(next, rest, q, r);
    }
    if steps[0].Act? && Marks(s, steps[0], steps[0].p, r) {
      assert MarkedBy(s, steps, steps[0].p, r);
    }
    if MarkedIn(next, rest, r) {
      var q :| MarkedBy(next, rest, q, r);
      assert MarkedBy(s, steps, q, r);
    }
  }

  /** The record of marks is the history of marking steps. */
  lemma {:induction false} MarkedIsTheHistory(s: System, steps: seq<Step>, r: string)
    ensures r in Exec(s, steps).marked <==> r in s.marked || MarkedIn(s, steps, r)
    decreases steps
  {
    if steps == [] {
    } else {
      OneStepMarks(s, steps[0], r);
      MarkedFirstOrLater(s, steps, r);
      MarkedIsTheHistory(Next(s, steps[0]), steps[1..], r);
    }
  }

  lemma DeliverKeepsUpdates(s: System, p: string, request: string, outcome: Outcome)
    requires p in s.procs
    ensures s.updates.Keys <= Deliver(s, p, request, outcome).updates.Keys
  {
  }

  lemma UpdatesStay(s: System, step: Step)
    ensures s.updates.Keys <= Next(s, step).updates.Keys
  {
    if step.Act? && step.p in s.procs && !InCheck(s.procs[step.p].at) {
      DeliverKeepsUpdates(s, step.p, step.request, step.outcome);
    }
  }

  lemma MarkerHasSent(s: System, step: Step, q: string, r: string)
    requires Inv(s) && Marks(s, step, q, r)
    ensures q in s.updates
  {
    assert ProcInv(s, q, s.procs[q]);
  }

  /** An await that marks has sent its one update. */
  lemma {:induction false} MarkersHaveSent(s: System, steps: seq<Step>, q: string, r: string)
    requires Inv(s) && (q in s.updates || MarkedBy(s, steps, q, r))
    ensures q in Exec(s, steps).updates
    decreases steps
  {
    if steps == [] {
    } else {
      UpdatesStay(s, steps[0]);
      StepKeepsInv(s, steps[0]);
      if Marks(s, steps[0], q, r) {
        MarkerHasSent(s, steps[0], q, r);
      }
      MarkersHaveSent(Next(s, steps[0]), steps[1..], q, r);
    }
  }

  lemma ReadingMarksNothing(s: System, step: Step, p: string, r: string)
    requires ReadsPending(s, step, p, r)
    ensures Next(s, step).marked == s.marked && Next(s, step).updates == s.updates
  {
  }

  lemma SendingCarries(s: System, p: string, r: string, outcome: Outcome)
    requires Inv(s) && AboutToSend(s, p, r) && !outcome.NotSent?
    ensures var after := Next(s, Act(p, "", outcome)); p in after.updates && r in after.updates[p]
    ensures p !in s.updates
  {
    assert ProcInv(s, p, s.procs[p]);
    assert Agrees(s, s.procs[p], r);
  }

  ghost predicate MarkedByAnother(s: System, steps: seq<Step>, p: string, r: string) {
    exists q :: q != p && MarkedBy(s, steps, q, r)
  }

  lemma NobodyMarksItsOwnBeforeSending(s: System, steps: seq<Step>, p: string, r: string)
    requires Inv(s) && p !in Exec(s, steps).updates
    ensures MarkedIn(s, steps, r) <==> MarkedByAnother(s, steps, p, r)
  {
    forall q | MarkedBy(s, steps, q, r)
      ensures q != p
    {
      MarkersHaveSent(s, steps, q, r);
    }
  }

  lemma PendingIsUnmarked(s: System, step: Step, p: string, r: string)
    requires TableInv(s) && ReadsPending(s, step, p, r)
    ensures Present(s) ==> r !in s.marked
  {
  }

  lemma RunInParts(init: System, before: seq<Step>, step: Step, later: seq<Step>)
    ensures Exec(init, before + [step] + later) == Exec(Next(Exec(init, before), step), later)
  {
    Runs.AfterOne(Next, Exec(init, before), step);
    Runs.AfterConcat(Next, init, before, [step]);
    Runs.AfterConcat(Next, init, before + [step], later);
  }

  /** In any run an await reads a response as pending, and later it is about to send it. Its
      update carries the response, and repeats one that was marked before, exactly when another
      await marked it between that read and the update. There is one more way, which takes the
      deletion of the row: when the row was gone at the read, so that what was read is a response
      inserted after the deletion, a mark from before the read counts too. */
  lemma UpdateRepeatsExactlyAMarkSinceTheRead(
    init: System, before: seq<Step>, step: Step, p: string, r: string, later: seq<Step>, outcome: Outcome)
    requires Initial(init) && ReadsPending(Exec(init, before), step, p, r) && !outcome.NotSent?
    requires AboutToSend(Exec(init, before + [step] + later), p, r)
    ensures var ready := Exec(init, before + [step] + later);
      p !in ready.updates && p in Next(ready, Act(p, "", outcome)).updates
      && r in Next(ready, Act(p, "", outcome)).updates[p]
    ensures var read := Exec(init, before);
      MarkedIn(init, before + [step] + later, r)
      <==> MarkedByAnother(Next(read, step), later, p, r) || (!Present(read) && MarkedIn(init, before, r))
  {
    var read, whole := Exec(init, before), before + [step] + later;
    var kept := Next(read, step);
    RunInParts(init, before, step, later);
    RunKeepsInv(init, whole);
    SendingCarries(Exec(init, whole), p, r, outcome);
    RunKeepsInv(init, before);
    StepKeepsInv(read, step);
    NobodyMarksItsOwnBeforeSending(kept, later, p, r);
    PendingIsUnmarked(read, step, p, r);
    MarksOfARun(init, before, step, p, r, later);
  }

  lemma MarksOfARun(init: System, before: seq<Step>, step: Step, p: string, r: string, later: seq<Step>)
    requires Initial(init) && ReadsPending(Exec(init, before), step, p, r)
    ensures MarkedIn(init, before, r) <==> r in Exec(init, before).marked
    ensures MarkedIn(init, before + [step] + later, r)
       <==> MarkedIn(init, before, r) || MarkedIn(Next(Exec(init, before), step), later, r)
  {
    RunInParts(init, before, step, later);
    MarkedIsTheHistory(init, before + [step] + later, r);
    MarkedIsTheHistory(init, before, r);
    MarkedIsTheHistory(Next(Exec(init, before), step), later, r);
    ReadingMarksNothing(Exec(init, before), step, p, r);
  }

  /** The await has read the response as pending a second time and has not sent it yet. */
  predicate Keeps(s: System, p: string, r: string) {
    p in s.procs &&
    match s.procs[p].at
    case Filtering(_, kept) => r in kept
    case ReadingEpoch(kept) => r in kept
    case Sending(_, kept) => r in kept
    case _ => false
  }

  lemma CheckKeepsNothing(s: System, p: string, r: string)
    requires p in s.procs && InCheck(s.procs[p].at)
    ensures !Keeps(Check(s, p), p, r)
  {
  }

  lemma FilteringKeepsWhatWasRead(s: System, p: string, request: string, outcome: Outcome, r: string)
    requires p in s.procs && s.procs[p].at.Filtering? && !Keeps(s, p, r)
    ensures Keeps(Deliver(s, p, request, outcome), p, r) ==> ReadsPending(s, Act(p, request, outcome), p, r)
  {
  }

  lemma DeliverKeepsWhatWasRead(s: System, p: string, request: string, outcome: Outcome, r: string)
    requires p in s.procs && !InCheck(s.procs[p].at) && !Keeps(s, p, r)
    ensures Keeps(Deliver(s, p, request, outcome), p, r) ==> ReadsPending(s, Act(p, request, outcome), p, r)
  {
    if s.procs[p].at.Filtering? {
      FilteringKeepsWhatWasRead(s, p, request, outcome, r);
    }
  }

  /** Whatever else a step does, it moves one await. */
  predicate MovesOnly(procs: map<string, Proc>, after: map<string, Proc>, p: string) {
    p in procs && p in after && after == procs[p := after[p]]
  }

  lemma InsertingMovesOnly(s: System, p: string)
    requires p in s.procs && s.procs[p].at.Setting?
    ensures MovesOnly(s.procs, Check(s, p).procs, p)
  {
  }

  lemma CheckMovesOnly(s: System, p: string)
    requires p in s.procs && InCheck(s.procs[p].at)
    ensures MovesOnly(s.procs, Check(s, p).procs, p)
  {
    if s.procs[p].at.Setting? {
      InsertingMovesOnly(s, p);
    }
  }

  lemma ReadingMovesOnly(s: System, p: string, request: string, outcome: Outcome)
    requires p in s.procs && (s.procs[p].at.Rechecking? || s.procs[p].at.Filtering? || s.procs[p].at.ReadingEpoch?)
    ensures MovesOnly(s.procs, Deliver(s, p, request, outcome).procs, p)
  {
    assert s.procs == s.procs[p := s.procs[p]];
  }

  lemma MarkingMovesOnly(s: System, p: string, request: string, outcome: Outcome)
    requires p in s.procs && s.procs[p].at.Marking?
    ensures MovesOnly(s.procs, Deliver(s, p, request, outcome).procs, p)
  {
    assert s.procs == s.procs[p := s.procs[p]];
  }

  lemma DeliverMovesOnly(s: System, p: string, request: string, outcome: Outcome)
    requires p in s.procs && !InCheck(s.procs[p].at)
    ensures MovesOnly(s.procs, Deliver(s, p, request, outcome).procs, p)
  {
    var at := s.procs[p].at;
    if at.Rechecking? || at.Filtering? || at.ReadingEpoch? {
      ReadingMovesOnly(s, p, request, outcome);
    } else if at.Marking? {
      MarkingMovesOnly(s, p, request, outcome);
    } else if !at.Sending? && !at.Recording? {
      assert s.procs == s.procs[p := s.procs[p]];
    }
  }

  lemma OthersKeepNothingNew(s: System, step: Step, p: string, r: string)
    requires !(step.Act? && step.p == p) && Keeps(Next(s, step), p, r)
    ensures Keeps(s, p, r)
  {
    if step.Act? && step.p in s.procs {
      if InCheck(s.procs[step.p].at) {
        CheckMovesOnly(s, step.p);
      } else {
        DeliverMovesOnly(s, step.p, step.request, step.outcome);
      }
      assert Lookup(Next(s, step).procs, p) == Lookup(s.procs, p);
    }
  }

  lemma KeepingStartsWithARead(s: System, step: Step, p: string, r: string)
    requires Keeps(Next(s, step), p, r) && !Keeps(s, p, r)
    ensures ReadsPending(s, step, p, r)
  {
    if !(step.Act? && step.p == p) {
      OthersKeepNothingNew(s, step, p, r);
    } else if p in s.procs {
      if InCheck(s.procs[p].at) {
        CheckKeepsNothing(s, p, r);
      } else {
        DeliverKeepsWhatWasRead(s, p, step.request, step.outcome, r);
      }
    }
  }

  /** Every response an await is about to send was read as pending at one step of the run, so
      the condition above decides every update. */
  lemma {:induction false} EveryUpdateWasRead(init: System, run: seq<Step>, p: string, r: string)
    returns (before: seq<Step>, step: Step, later: seq<Step>)
    requires Initial(init) && Keeps(Exec(init, run), p, r)
    ensures run == before + [step] + later && ReadsPending(Exec(init, before), step, p, r)
    decreases |run|
  {
    assert run != [];
    var most, last := run[..|run| - 1], run[|run| - 1];
    assert run == most + [last];
    Runs.AfterConcat(Next, init, most, [last]);
    Runs.AfterOne(Next, Exec(init, most), last);
    if Keeps(Exec(init, most), p, r) {
      before, step, later := EveryUpdateWasRead(init, most, p, r);
      later := later + [last];
    } else {
      KeepingStartsWithARead(Exec(init, most), last, p, r);
      before, step, later := most, last, [];
    }
  }

  // ---------------------------------------------------------------- a run that repeats a response

  const ASKED := System(0, None, Some(InputRequired), {"r"}, map[], map[], map[], {}, map[], {}, {}, false)

  const REPLY := map["r" := "v"]

  ghost predicate Reached(s: System) {
    Runs.Reaches(Next, ASKED, s)
  }

  lemma Go(s: System, step: Step) returns (s': System)
    requires Reached(s)
    ensures Reached(s') && s' == Next(s, step)
  {
    s' := Next(s, step);
    Runs.ReachesNext(Next, ASKED, s, step);
  }

  /** One step of an await whose only request is r. */
  lemma Turn(s: System, p: string, next: System) returns (s': System)
    requires Reached(s) && next == Next(s, Act(p, "r", Acknowledged))
    ensures Reached(s') && s' == next
  {
    s' := Go(s, Act(p, "r", Acknowledged));
  }

  lemma AtTwice(s: System, p: string, a: Point, b: Point)
    requires p in s.procs
    ensures At(At(s, p, a), p, b) == At(s, p, b)
  {
    assert s.procs[p := s.procs[p].(at := a)][p := s.procs[p].(at := b)] == s.procs[p := s.procs[p].(at := b)];
  }

  /** Another step, from a point it came to before. */
  lemma TurnOn(s: System, p: string, a: Point, b: Point) returns (s': System)
    requires p in s.procs && Reached(At(s, p, a)) && At(At(s, p, a), p, b) == Next(At(s, p, a), Act(p, "r", Acknowledged))
    ensures Reached(s') && s' == At(s, p, b)
  {
    AtTwice(s, p, a, b);
    s' := Turn(At(s, p, a), p, At(s, p, b));
  }

  /** It reads its response as pending a second time. */
  lemma ReadsAgain(s: System, p: string) returns (s': System)
    requires Reached(s) && p in s.procs && s.procs[p] == Proc(REPLY, ["r"], Checking([], {"r"}, {"r"}))
    requires s.status == Some(InputRequired) && s.outstanding == {"r"} && "r" in s.answers && !s.answers["r"].sent
    ensures Reached(s') && s' == At(s, p, Filtering({}, {"r"}))
  {
    assert {"r"} * {"r"} == {"r"} && {"r"} - {"r"} == {} && {} + {"r"} == {"r"};
    s' := Turn(s, p, At(s, p, Rechecking({"r"})));
    s' := TurnOn(s, p, Rechecking({"r"}), Filtering({"r"}, {}));
    s' := TurnOn(s, p, Filtering({"r"}, {}), Filtering({}, {"r"}));
  }

  /** From its pending response an await comes to its update. */
  lemma ComesToSend(s: System, p: string, epoch: int) returns (s': System)
    requires Reached(s) && p in s.procs && s.procs[p] == Proc(REPLY, ["r"], Checking([], {"r"}, {"r"}))
    requires s.status == Some(InputRequired) && s.outstanding == {"r"} && "r" in s.answers && !s.answers["r"].sent
    requires Leases.HeldInEpoch(s.lease, p, epoch, s.now)
    ensures Reached(s') && s' == At(s, p, Sending(epoch, {"r"}))
  {
    s' := ReadsAgain(s, p);
    s' := TurnOn(s, p, Filtering({}, {"r"}), ReadingEpoch({"r"}));
    s' := TurnOn(s, p, ReadingEpoch({"r"}), Sending(epoch, {"r"}));
  }

  /** An await records its response. */
  lemma FirstRecords() returns (s: System)
    ensures Reached(s)
    ensures s == ASKED.(lease := Some(Leases.LeaseRow("q", 10, 1)), answers := map["r" := Stored("v", false)],
                        procs := map["q" := Proc(REPLY, ["r"], Checking([], {"r"}, {"r"}))], recorded := REPLY)
  {
    s := ASKED;
    assert ["r"][1..] == [] && {} + {"r"} == {"r"};
    Runs.ReachesItself<System, Step>(Next, s);
    s := Go(s, Arrive("q", REPLY, ["r"]));
    s := Go(s, Claim("q", 10));
    s := Turn(s, "q", At(s, "q", Checking(["r"], {"r"}, {})));
    s := Turn(s, "q", At(s, "q", Setting(["r"], {"r"}, {})));
    s := Turn(s, "q", At(Inserted(s, "r", "v"), "q", Waiting(["r"], {"r"}, {})));
    s := Turn(s, "q", At(s, "q", Checking([], {"r"}, {"r"})));
    assert s.procs == map["q" := Proc(REPLY, ["r"], Checking([], {"r"}, {"r"}))];
  }

  /** It sends the update, passes CommitLease, and stalls before it marks. */
  lemma FirstStalls() returns (s: System)
    ensures Reached(s)
    ensures "q" in s.procs && "p" !in s.procs && s.procs["q"].at == Marking({"r"})
    ensures s.now == 20 && s.lease == Some(Leases.LeaseRow("q", 10, 1)) && s.marked == {}
    ensures s.status == Some(InputRequired) && s.outstanding == {"r"} && s.answers == map["r" := Stored("v", false)]
  {
    s := FirstRecords();
    s := ComesToSend(s, "q", 1);
    s := Go(s, Act("q", "r", Acknowledged));
    assert s.procs["q"].at == Recording(1, {"r"});
    s := Go(s, Act("q", "r", Acknowledged));
    s := Go(s, Tick(20));
  }

  /** The second await claims the expired lease. */
  lemma SecondClaims() returns (s: System)
    ensures Reached(s)
    ensures "q" in s.procs && "p" in s.procs && s.procs["q"].at == Marking({"r"})
    ensures s.procs["p"] == Proc(REPLY, ["r"], Loading)
    ensures s.now == 20 && s.lease == Some(Leases.LeaseRow("p", 40, 2)) && s.marked == {}
    ensures s.status == Some(InputRequired) && s.outstanding == {"r"} && s.answers == map["r" := Stored("v", false)]
  {
    s := FirstStalls();
    s := Go(s, Arrive("p", REPLY, ["r"]));
    s := Go(s, Claim("p", 40));
  }

  /** It reads the response as pending and comes to its update. */
  lemma SecondReads() returns (s: System)
    ensures Reached(s)
    ensures "q" in s.procs && "p" in s.procs && s.procs["q"].at == Marking({"r"})
    ensures s.procs["p"].at == Sending(2, {"r"}) && s.answers == map["r" := Stored("v", false)]
    ensures Leases.HeldInEpoch(s.lease, "p", 2, s.now)
  {
    assert ["r"][1..] == [] && {} + {"r"} == {"r"};
    var t := SecondClaims();
    s := Turn(t, "p", At(t, "p", Checking(["r"], {"r"}, {})));
    s := TurnOn(t, "p", Checking(["r"], {"r"}, {}), Waiting(["r"], {"r"}, {}));
    s := TurnOn(t, "p", Waiting(["r"], {"r"}, {}), Checking([], {"r"}, {"r"}));
    s := ComesToSend(s, "p", 2);
  }

  /** It holds its epoch; then the first await marks. */
  lemma SecondIsAboutToSend() returns (s: System)
    ensures Reached(s) && "p" in s.procs && s.procs["p"].at == Sending(2, {"r"}) && "r" in s.marked
    ensures Leases.HeldInEpoch(s.lease, "p", 2, s.now)
  {
    s := SecondReads();
    s := Go(s, Act("q", "r", Acknowledged));
  }

  /** A response is sent again after it was marked sent, by an await that holds its delivery
      epoch: CommitLease and the mark are two transactions, and the first await stalled between
      them. */
  lemma MarkedCanBeSentAgain() returns (steps: seq<Step>)
    ensures Initial(ASKED) && Exec(ASKED, steps).repeated
  {
    var s := SecondIsAboutToSend();
    assert "r" in {"r"} * s.marked;
    s := Go(s, Act("p", "r", Acknowledged));
    assert s.repeated;
    steps :| Runs.After(Next, ASKED, steps) == s;
  }
}
